# Bartender: a verified model of the catalog, favorites and list logic

Bartender is an Android cocktail-recipe app. Its code comes in two generations, and this project
models the logic of both in Dafny.

- **The legacy generation** (`com.example.bartender`) keeps the catalog in memory.
  - `CocktailRepository` holds a list of `Cocktail`s and a set of favorite int ids. It converts
    the static catalog records with `toCocktail` and answers every list query: all, popular
    (first five), favorites, by id, and search.
  - `CocktailListFragment` picks one of these queries from a `listType` code.
  - `OnSingleClickListener` swallows clicks that come within an interval of the last click that
    fired.
- **The Room generation** (`com.lcz.bartender`) keeps three keyed tables: `cocktails`,
  `favorites` and `categories`. They are read through DAOs and a `FavoriteRepository`, and three
  ViewModels hold derived screen state:
  - the cocktails of a category, each paired with its favorite flag;
  - one cocktail with a favorite flag kept in step with the table;
  - the favorite records and the cocktails they name.

How the model is built:

- **Tables.** Each table is a `map` from primary key to record, held in a DAO class. `Valid()`
  says that every record is stored under its own key.
  - An insert with `OnConflictStrategy.REPLACE` is `Tables.Upsert`: record by record, so the
    later of two records with the same key wins.
  - A `SELECT … WHERE … ORDER BY …` is specified by `Tables.Lists`: exactly the kept records,
    each once, sorted.
  - `Tables.Select` computes such a listing by insertion into a sorted sequence.
- **Emissions.** A Flow emission or a coroutine step is one sequential method that replaces the
  ViewModel field it feeds.
- **Values.** The legacy repository's queries are pure functions over its two fields.
  `toggleFavorite`, `onCreate` and `onClick` change their object in place.
- **Parameters.** The current time (`Date()`, `SystemClock.elapsedRealtime()`) is a parameter.
  So is the case folding used by case-insensitive matching (`fold`).

## Model

| member | source | states |
|---|---|---|
| Text.Trim | app/src/main/java/com/example/bartender/repository/CocktailRepository.kt:92 | Kotlin `trim()`: the result is empty iff the input is blank; otherwise it starts and ends with non-whitespace and is an infix of the input with blank margins |
| Text.TrimIdempotent | app/src/main/java/com/example/bartender/repository/CocktailRepository.kt:92 | trimming twice is trimming once |
| Text.Join | app/src/main/java/com/example/bartender/repository/CocktailRepository.kt:99 | `joinToString(", ")`: empty for no parts, the part itself for one part, and the first part followed by the separator for several |
| Text.JoinSnoc | app/src/main/java/com/example/bartender/repository/CocktailRepository.kt:99 | appending one more part appends the separator and that part: the parts appear in order, separated once each |
| Text.JoinLength | app/src/main/java/com/example/bartender/repository/CocktailRepository.kt:99 | the joined text is as long as all parts together plus one separator between each neighbouring pair |
| Text.JavaHashCode | app/src/main/java/com/example/bartender/repository/CocktailRepository.kt:79 | the int id is in the signed 32-bit range and congruent mod 2^32 to the 31-multiplier hash of the string id |
| Text.NameLeTotal | app/src/main/java/com/lcz/bartender/data/local/dao/CocktailDao.kt:26 | any two names are ordered one way or the other by `ORDER BY name` |
| Text.NameLeTransitive | app/src/main/java/com/lcz/bartender/data/local/dao/CocktailDao.kt:26 | the name order is transitive |
| Text.NameLeAntisymmetric | app/src/main/java/com/lcz/bartender/data/local/dao/CocktailDao.kt:26 | two names that each come no later than the other are equal |
| Seqs.Filter | app/src/main/java/com/example/bartender/repository/CocktailRepository.kt:29 | `filter`: no longer than the input, holds only elements that satisfy the predicate, all taken from the input, and every input element that satisfies it |
| Seqs.FilterIsSubsequence | app/src/main/java/com/example/bartender/repository/CocktailRepository.kt:29 | `filter` keeps input order: its result is a subsequence of the input |
| Seqs.FilterCount | app/src/main/java/com/example/bartender/repository/CocktailRepository.kt:29 | `filter` keeps every occurrence of a value that satisfies the predicate and drops every occurrence of one that does not |
| Seqs.FilterCountAll | app/src/main/java/com/example/bartender/repository/CocktailRepository.kt:29 | the same multiplicity statement for all values at once |
| Seqs.Take | app/src/main/java/com/example/bartender/repository/CocktailRepository.kt:25 | `take(n)`: length min(n, size), and element i equals input element i |
| Seqs.PrefixIsSubsequence | app/src/main/java/com/example/bartender/repository/CocktailRepository.kt:25 | a prefix is an order-preserving subsequence |
| Tables.Upsert | app/src/main/java/com/lcz/bartender/data/local/dao/CocktailDao.kt:19-20 | insert-or-replace of a batch: the keys become the old keys plus the batch keys; records outside the batch are unchanged; records stay under their own keys |
| Tables.UpsertLastWins | app/src/main/java/com/lcz/bartender/data/local/dao/CocktailDao.kt:19-20 | on a key conflict within the batch, the last record with that key is the one stored |
| Tables.Select | app/src/main/java/com/lcz/bartender/data/local/dao/CocktailDao.kt:26-27 | the query result (`Lists`): sorted by the order; every element is the stored record under its key and satisfies the condition; every stored record that satisfies it appears; no key appears twice |
| Tables.ListedWithinAll | app/src/main/java/com/lcz/bartender/data/local/dao/CocktailDao.kt:34-51 | a filtered listing holds nothing the unfiltered listing of the same table lacks |
| Tables.DistinctKeysCount | app/src/main/java/com/lcz/bartender/data/local/dao/CocktailDao.kt:26-27 | a listing with distinct keys has as many keys as elements |
| Tables.ListingAllHasTableSize | app/src/main/java/com/lcz/bartender/data/local/dao/CocktailDao.kt:26-27 | listing every row returns exactly as many records as the table has keys |
| Tables.UpsertDistinctIntoEmpty | app/src/main/java/com/lcz/bartender/data/local/dao/CocktailDao.kt:19-20 | a batch with distinct keys inserted into an empty table stores each record under its key, one key per record |
| Tables.ListingAfterDistinctInsert | app/src/main/java/com/lcz/bartender/data/local/dao/CocktailDao.kt:19-27 | inserting N records with distinct keys and then listing all gives N records, exactly those of the batch |
| LegacyRepository.ParseDifficulty | app/src/main/java/com/example/bartender/repository/CocktailRepository.kt:82-87 | MEDIUM iff the label is "中等", HARD iff it is "复杂", and EASY for "简单", any other label, and null |
| LegacyRepository.AmountWithUnit | app/src/main/java/com/example/bartender/repository/CocktailRepository.kt:92 | a trimmed amount with a trimmed unit reads "amount unit" |
| LegacyRepository.AmountWithoutUnit | app/src/main/java/com/example/bartender/repository/CocktailRepository.kt:92 | with an empty unit the separating space is trimmed away, leaving the amount |
| LegacyRepository.ToIngredients | app/src/main/java/com/example/bartender/repository/CocktailRepository.kt:90-94 | ingredient count and order are kept; each name is the ingredient id and each amount is `trim(amount + " " + unit)` |
| LegacyRepository.ToCocktail | app/src/main/java/com/example/bartender/repository/CocktailRepository.kt:76-105 | fails iff `flavorDescription` is null (the `!!`); otherwise the id is the hash of the string id, the description is the flavors joined with ", ", the difficulty is parsed, the ingredients are converted in order, the instructions are the preparation steps, and the cocktail is not flagged |
| LegacyRepository.ConvertAll | app/src/main/java/com/example/bartender/repository/CocktailRepository.kt:71-74 | the catalog converted record by record, in order |
| LegacyRepository.WithFlagsAt | app/src/main/java/com/example/bartender/repository/CocktailRepository.kt:20-22 | the flagged list has the stored length, and element i is stored cocktail i with `isFavorite` set to membership of its id |
| LegacyRepository.FirstWithId | app/src/main/java/com/example/bartender/repository/CocktailRepository.kt:33 | `find`: the first position whose id matches, or the length when none matches |
| LegacyRepository.Toggled | app/src/main/java/com/example/bartender/repository/CocktailRepository.kt:45-52 | the toggled id's membership flips; every other id keeps its membership |
| LegacyRepository.ToggleTwice | app/src/main/java/com/example/bartender/repository/CocktailRepository.kt:45-52 | toggling the same id twice restores the set |
| LegacyRepository.ToggledTimesParity | app/src/main/java/com/example/bartender/repository/CocktailRepository.kt:45-52 | after n toggles of an id, its membership has flipped iff n is odd; other ids are untouched |
| LegacyRepository.LoadFavorites | app/src/main/java/com/example/bartender/repository/CocktailRepository.kt:61-69 | the favorites are exactly the ids of the saved array, and empty when nothing was saved |
| LegacyRepository.CocktailRepository.constructor | app/src/main/java/com/example/bartender/repository/CocktailRepository.kt:15-18 | favorites are the saved ids; the cocktails are the catalog converted in order |
| LegacyRepository.CocktailRepository.GetAllCocktails | app/src/main/java/com/example/bartender/repository/CocktailRepository.kt:20-22 | one entry per stored cocktail, in stored order, with `isFavorite` equal to membership of its id |
| LegacyRepository.CocktailRepository.GetPopularCocktails | app/src/main/java/com/example/bartender/repository/CocktailRepository.kt:24-26 | the prefix of the full list of length min(5, n) |
| LegacyRepository.CocktailRepository.GetFavoriteCocktails | app/src/main/java/com/example/bartender/repository/CocktailRepository.kt:28-30 | an order-preserving subsequence of the full list; each element is a favorite and flagged; every favorite appears, as often as in the full list, and nothing else does |
| LegacyRepository.CocktailRepository.GetCocktailById | app/src/main/java/com/example/bartender/repository/CocktailRepository.kt:32-34 | null iff no stored id matches; otherwise the flagged entry of the first match |
| LegacyRepository.CocktailRepository.SearchCocktails | app/src/main/java/com/example/bartender/repository/CocktailRepository.kt:36-43 | a blank query gives the full list; any other query gives the order-preserving subsequence of cocktails whose name, description or some ingredient name contains it (ignoring case), all of them, each as often as in the full list, and only them |
| LegacyRepository.CocktailRepository.ToggleFavorite | app/src/main/java/com/example/bartender/repository/CocktailRepository.kt:45-52 | the favorite set becomes the toggled set; the cocktails are unchanged |
| LegacyListFragment.ListTypeArgument | app/src/main/java/com/example/bartender/fragment/CocktailListFragment.kt:31-32 | TYPE_ALL without arguments or without a list-type entry; otherwise the entry |
| LegacyListFragment.NewInstanceArguments | app/src/main/java/com/example/bartender/fragment/CocktailListFragment.kt:140-146 | the arguments `newInstance(type)` builds read back as `type` |
| LegacyListFragment.CocktailListFragment.constructor | app/src/main/java/com/example/bartender/fragment/CocktailListFragment.kt:27 | `listType` starts as TYPE_ALL |
| LegacyListFragment.CocktailListFragment.OnCreate | app/src/main/java/com/example/bartender/fragment/CocktailListFragment.kt:29-34 | with arguments, `listType` is read from them; without arguments it is unchanged |
| LegacyListFragment.CocktailListFragment.LoadCocktails | app/src/main/java/com/example/bartender/fragment/CocktailListFragment.kt:92-100 | popular for TYPE_POPULAR, favorites for TYPE_FAVORITES, and the full list for TYPE_ALL and every unknown code |
| LegacyListFragment.CocktailListFragment.SearchCocktails | app/src/main/java/com/example/bartender/fragment/CocktailListFragment.kt:102-111 | TYPE_POPULAR: a prefix of the search result of length min(5, n); TYPE_FAVORITES: the order-preserving subsequence of flagged results, each as often as in the search result; otherwise the search result unchanged |
| LegacyListFragment.BlankSearchShowsLoadedList | app/src/main/java/com/example/bartender/fragment/CocktailListFragment.kt:92-111 | for every list type, searching a blank query shows the same list as loading without a search |
| SingleClick.Click | app/src/main/java/com/example/bartender/OnSingleClickListener.kt:17-26 | fires iff more than the interval has passed since the last fired click; the last-click time becomes the click time when it fires and is kept otherwise |
| SingleClick.OnSingleClickListener.constructor | app/src/main/java/com/example/bartender/OnSingleClickListener.kt:11-15 | interval 1000 ms, last click at 0 |
| SingleClick.OnSingleClickListener.WithInterval | app/src/main/java/com/example/bartender/OnSingleClickListener.kt:44-47 | the custom-interval listener: the given interval, last click at 0 |
| SingleClick.OnSingleClickListener.OnClick | app/src/main/java/com/example/bartender/OnSingleClickListener.kt:17-26 | fires iff `now - lastClickTime > interval`; `lastClickTime` changes only on firing, and then to `now` |
| SingleClick.EarlyClickSwallowed | app/src/main/java/com/example/bartender/OnSingleClickListener.kt:15-22 | with the initial last-click time 0, a click at time 1000 or earlier is swallowed |
| SingleClick.SuppressedRunKeepsState | app/src/main/java/com/example/bartender/OnSingleClickListener.kt:22-26 | a run of suppressed clicks leaves the last-click time unchanged, so a burst does not extend the window |
| SingleClick.LastClickAtLeastFired | app/src/main/java/com/example/bartender/OnSingleClickListener.kt:22-25 | with non-decreasing times, after a click fires the last-click time never drops below that click's time |
| SingleClick.FiredClicksAreSpaced | app/src/main/java/com/example/bartender/OnSingleClickListener.kt:22-25 | with non-decreasing times, any two fired clicks are more than the interval apart |
| SavedState.RequiredArgument | app/src/main/java/com/lcz/bartender/presentation/cocktaillist/CocktailListViewModel.kt:35-36 | succeeds iff the key is present, with its value; otherwise `IllegalArgumentException("<key> is required")` |
| Tables.NameOrderIsTotalPreorder | app/src/main/java/com/lcz/bartender/data/local/dao/CocktailDao.kt:26 | `ORDER BY name ASC` over any record type is a total preorder, as the sort needs |
| CocktailDao.CocktailDao.InsertAllCocktails | app/src/main/java/com/lcz/bartender/data/local/dao/CocktailDao.kt:19-20 | the table becomes the upsert of the batch: every batch id is present, a conflicting id is replaced, other records are unchanged |
| CocktailDao.CocktailDao.GetAllCocktails | app/src/main/java/com/lcz/bartender/data/local/dao/CocktailDao.kt:26-27 | every stored cocktail once, sorted by name; as many as the table has |
| CocktailDao.CocktailDao.GetCocktailsByCategoryId | app/src/main/java/com/lcz/bartender/data/local/dao/CocktailDao.kt:34-35 | exactly the stored cocktails of that category, each once, sorted by name |
| CocktailDao.CocktailDao.GetCocktailById | app/src/main/java/com/lcz/bartender/data/local/dao/CocktailDao.kt:42-43 | the record under that id, or null iff there is none |
| CocktailDao.CocktailDao.SearchCocktailsByName | app/src/main/java/com/lcz/bartender/data/local/dao/CocktailDao.kt:50-51 | exactly the stored cocktails whose name contains the query, each once, sorted by name |
| CocktailDao.QueriesWithinAll | app/src/main/java/com/lcz/bartender/data/local/dao/CocktailDao.kt:34-51 | the by-category and by-name results are within the full listing |
| CocktailDao.InsertThenListAll | app/src/main/java/com/lcz/bartender/data/local/dao/CocktailDao.kt:19-27 | inserting N cocktails with distinct ids into an empty table and listing all gives exactly those N, sorted by name |
| CategoryDao.CategoryDao.InsertAllCategories | app/src/main/java/com/lcz/bartender/data/local/dao/CategoryDao.kt:19-20 | upsert by id: a conflicting id is replaced; categories whose ids are not in the batch are unchanged |
| CategoryDao.CategoryDao.GetAllCategories | app/src/main/java/com/lcz/bartender/data/local/dao/CategoryDao.kt:26-27 | every stored category once, sorted by name |
| CategoryDao.CategoryDao.GetCategoryById | app/src/main/java/com/lcz/bartender/data/local/dao/CategoryDao.kt:34-35 | the record under that id, or null iff there is none |
| FavoriteDao.FavoriteDao.InsertFavorite | app/src/main/java/com/lcz/bartender/data/local/dao/FavoriteDao.kt:20-21 | the record is stored under its cocktail id, replacing any earlier one; one record per cocktail id |
| FavoriteDao.FavoriteDao.DeleteFavorite | app/src/main/java/com/lcz/bartender/data/local/dao/FavoriteDao.kt:27-28 | removes the record keyed by the given record's cocktail id |
| FavoriteDao.FavoriteDao.DeleteFavoriteById | app/src/main/java/com/lcz/bartender/data/local/dao/FavoriteDao.kt:34-35 | removes that id's record and nothing else; no change when it is absent |
| FavoriteDao.FavoriteDao.GetAllFavorites | app/src/main/java/com/lcz/bartender/data/local/dao/FavoriteDao.kt:41-42 | every record once, newest `collectionTime` first |
| FavoriteDao.FavoriteDao.GetFavoriteById | app/src/main/java/com/lcz/bartender/data/local/dao/FavoriteDao.kt:49-50 | the record for that id, or null iff there is none |
| FavoriteDao.FavoriteDao.GetAllFavoriteCocktailIds | app/src/main/java/com/lcz/bartender/data/local/dao/FavoriteDao.kt:56-57 | exactly the key set, each key once, in no promised order |
| FavoriteRepository.WithFavorite | app/src/main/java/com/lcz/bartender/data/repository/FavoriteRepository.kt:31-34 | `addFavorite`: the id becomes a key with a fresh record stamped now; other records are unchanged |
| FavoriteRepository.WithoutFavorite | app/src/main/java/com/lcz/bartender/data/repository/FavoriteRepository.kt:40-42 | `removeFavorite`: only the id is removed, and nothing changes when it is absent |
| FavoriteRepository.Toggled | app/src/main/java/com/lcz/bartender/presentation/cocktaillist/CocktailListViewModel.kt:96-104 | a screen's toggle: afterwards the id is a favorite iff the screen's flag was false; no other id changes |
| FavoriteRepository.FavoriteRepository.GetAllFavorites | app/src/main/java/com/lcz/bartender/data/repository/FavoriteRepository.kt:23-25 | every favorite record once, newest first |
| FavoriteRepository.FavoriteRepository.AddFavorite | app/src/main/java/com/lcz/bartender/data/repository/FavoriteRepository.kt:31-34 | the table becomes `WithFavorite(old, id, now)` |
| FavoriteRepository.FavoriteRepository.RemoveFavorite | app/src/main/java/com/lcz/bartender/data/repository/FavoriteRepository.kt:40-42 | the table becomes `WithoutFavorite(old, id)` |
| FavoriteRepository.FavoriteRepository.IsFavorite | app/src/main/java/com/lcz/bartender/data/repository/FavoriteRepository.kt:49-51 | true iff a record for the id exists |
| FavoriteRepository.FavoriteRepository.GetAllFavoriteCocktailIds | app/src/main/java/com/lcz/bartender/data/repository/FavoriteRepository.kt:57-59 | exactly the table's key set, each once |
| FavoriteRepository.AddedIsFavoriteRemovedIsNot | app/src/main/java/com/lcz/bartender/data/repository/FavoriteRepository.kt:31-51 | right after adding, the id is a favorite; right after removing, it is not; other ids keep their membership |
| FavoriteRepository.AddIsIdempotentOnMembership | app/src/main/java/com/lcz/bartender/data/repository/FavoriteRepository.kt:31-34 | adding an id already present keeps the key set; adding twice equals adding once, at the later time |
| FavoriteRepository.AddThenRemoveRestores | app/src/main/java/com/lcz/bartender/data/repository/FavoriteRepository.kt:31-42 | removing a just-added id that was not a favorite restores the table |
| CocktailListViewModel.WithFavoriteStatus | app/src/main/java/com/lcz/bartender/presentation/cocktaillist/CocktailListViewModel.kt:49-55 | same length and order as the cocktails; element i is cocktail i flagged iff its id is among the favorite ids |
| CocktailListViewModel.PairingKeepsCocktails | app/src/main/java/com/lcz/bartender/presentation/cocktaillist/CocktailListViewModel.kt:49-55 | dropping the flags gives back the cocktails, so a new favorite-id list changes only flags |
| CocktailListViewModel.FlagFollowsTable | app/src/main/java/com/lcz/bartender/presentation/cocktaillist/CocktailListViewModel.kt:49-55 | when the id list is the favorites table's key set, each flag is membership in the table |
| CocktailListViewModel.SampleCocktails | app/src/main/java/com/lcz/bartender/presentation/cocktaillist/CocktailListViewModel.kt:112-180 | "cocktail" gives mojito and margarita, "wine" gives red_wine, anything else nothing; every sample carries the requested category |
| CocktailListViewModel.SampleInsertKeys | app/src/main/java/com/lcz/bartender/presentation/cocktaillist/CocktailListViewModel.kt:110-181 | inserting the samples adds exactly {mojito, margarita}, {red_wine} or nothing to the table's keys |
| CocktailListViewModel.CocktailListViewModel.constructor | app/src/main/java/com/lcz/bartender/presentation/cocktaillist/CocktailListViewModel.kt:39-60 | the cocktail list, the favorite ids and the combined list start empty |
| CocktailListViewModel.CocktailListViewModel.Create | app/src/main/java/com/lcz/bartender/presentation/cocktaillist/CocktailListViewModel.kt:35-36 | fails with `IllegalArgumentException("categoryId is required")` iff the argument is absent; otherwise a fresh screen for that category with empty lists |
| CocktailListViewModel.CocktailListViewModel.CollectCocktails | app/src/main/java/com/lcz/bartender/presentation/cocktaillist/CocktailListViewModel.kt:72-78 | the cocktails become the category's listing sorted by name; the combined list is re-paired |
| CocktailListViewModel.CocktailListViewModel.CollectFavoriteCocktailIds | app/src/main/java/com/lcz/bartender/presentation/cocktaillist/CocktailListViewModel.kt:83-89 | the shown cocktails and their order stay; each flag becomes membership in the favorites table |
| CocktailListViewModel.CocktailListViewModel.ToggleFavoriteStatus | app/src/main/java/com/lcz/bartender/presentation/cocktaillist/CocktailListViewModel.kt:96-104 | removes the id when `isFavorite`, adds it otherwise; no other id is affected |
| CocktailListViewModel.CocktailListViewModel.InsertSampleCocktails | app/src/main/java/com/lcz/bartender/presentation/cocktaillist/CocktailListViewModel.kt:110-184 | the cocktails table becomes the upsert of the category's samples |
| CocktailDetailViewModel.CocktailDetailViewModel.constructor | app/src/main/java/com/lcz/bartender/presentation/cocktaildetail/CocktailDetailViewModel.kt:35-39 | the cocktail starts null and the flag false |
| CocktailDetailViewModel.CocktailDetailViewModel.Create | app/src/main/java/com/lcz/bartender/presentation/cocktaildetail/CocktailDetailViewModel.kt:31-32 | fails with `IllegalArgumentException("cocktailId is required")` iff the argument is absent |
| CocktailDetailViewModel.CocktailDetailViewModel.LoadCocktailDetail | app/src/main/java/com/lcz/bartender/presentation/cocktaildetail/CocktailDetailViewModel.kt:51-55 | the cocktail becomes the lookup result for the id, null when there is none |
| CocktailDetailViewModel.CocktailDetailViewModel.CheckFavoriteStatus | app/src/main/java/com/lcz/bartender/presentation/cocktaildetail/CocktailDetailViewModel.kt:60-66 | the flag becomes membership of the id in the favorites table |
| CocktailDetailViewModel.CocktailDetailViewModel.ToggleFavoriteStatus | app/src/main/java/com/lcz/bartender/presentation/cocktaildetail/CocktailDetailViewModel.kt:71-81 | removes the id when the flag is set and adds it otherwise; the flag is negated; afterwards flag and table agree |
| FavoritesViewModel.FavoriteCocktails | app/src/main/java/com/lcz/bartender/presentation/favorites/FavoritesViewModel.kt:49-51 | `mapNotNull`: no longer than the favorites, and every favorite whose cocktail exists contributes it |
| FavoritesViewModel.FavoriteCocktailsFollowFavorites | app/src/main/java/com/lcz/bartender/presentation/favorites/FavoritesViewModel.kt:49-52 | the shown cocktails are the look-ups of exactly the favorites the table knows, in favorites order |
| FavoritesViewModel.ShownIdsAreFavoriteIds | app/src/main/java/com/lcz/bartender/presentation/favorites/FavoritesViewModel.kt:49-51 | every shown cocktail's id is the cocktail id of some favorite |
| FavoritesViewModel.FavoritesViewModel.constructor | app/src/main/java/com/lcz/bartender/presentation/favorites/FavoritesViewModel.kt:29-32 | both lists start empty |
| FavoritesViewModel.FavoritesViewModel.CollectFavorites | app/src/main/java/com/lcz/bartender/presentation/favorites/FavoritesViewModel.kt:44-55 | the entities become the latest emission (all records, newest first) and the cocktails its `mapNotNull` look-up |
| FavoritesViewModel.FavoritesViewModel.RemoveFavorite | app/src/main/java/com/lcz/bartender/presentation/favorites/FavoritesViewModel.kt:61-65 | deletes only that id from the favorites table |

The favorites DAO returns the id list of `getAllFavoriteCocktailIds` with a plain
`SELECT cocktailId FROM favorites` (FavoriteDao.kt:56): the query has no `ORDER BY`, and no
order is documented for it. The model's ids therefore come in no promised order.

## Left out

- Android UI and lifecycle: activities, fragment view code, adapters, dialogs and the search
  widget are view wiring. The legacy fragment's `onResume` and activity-result reloads only
  call `loadCocktails` again.
- SharedPreferences and JSON: the saved favorites are given as the decoded int array (absent
  on first start), and `saveFavoritesToPreferences` is not modelled.
- Coroutines and Flow: `viewModelScope.launch`, `collect`, `combine` and
  `stateIn(WhileSubscribed(5000))` are concurrency and lifecycle. Each emission or write is one
  sequential method, and interleavings of emissions are not modelled.
- `@Volatile` and thread visibility of `lastClickTime` are not modelled.
- Clocks: `Date()` and `SystemClock.elapsedRealtime()` are parameters. A `Date` is its epoch
  milliseconds.
- Case-insensitive matching: Kotlin's `contains(ignoreCase = true)` and SQL `LIKE` compare
  characters through a given `fold` function. Their actual case tables are not modelled, and
  neither are the `%` and `_` wildcards that a query string may itself contain.
- Text.JavaHashCode: strings are sequences of Unicode scalar values, not UTF-16 code units,
  so the hash matches Java only for strings without characters outside the Basic Multilingual
  Plane. (The name order needs no such caveat: UTF-8 byte order, which SQLite's BINARY
  collation compares, is code-point order for every scalar value.)
- Converters.kt (Gson and `Date` conversion) and the Room, Hilt and DI setup are library code.
- The two static catalogs (both `CocktailData.kt`) are literal data. The legacy repository
  instead takes its catalog as a constructor argument, and requires that every record has a
  flavor list.
- The Room-generation `CocktailRepository` and `CategoryRepository` are one-line delegations.
  The ViewModels call the DAO contracts directly.
- `CategoryViewModel`, the fragments' "insert samples when empty" triggers, `GlideUtils` and
  the legacy `MainActivity`'s randomness are not part of this model.
- CocktailDao.InsertThenListAll: states the insert-then-list round trip only for batches with
  distinct ids. With duplicate ids the later record wins (Tables.UpsertLastWins), so fewer
  records come back.
