/** The list-selection logic of the legacy list screen
    (com.example.bartender.fragment.CocktailListFragment): a list-type code chosen once from the
    screen's arguments decides which repository query fills the list, and how search results
    are cut down. */
module LegacyListFragment {
  import opened Wrappers
  import opened Seqs
  import opened Text
  import opened LegacyModel
  import opened LegacyRepository

  const ARG_LIST_TYPE: string := "list_type"
  const TYPE_ALL: int := 0
  const TYPE_POPULAR: int := 1
  const TYPE_FAVORITES: int := 2

  /** The list type read from the screen's arguments (a bundle, here its int entries):
      TYPE_ALL when there are no arguments or they hold no list type. */
  function ListTypeArgument(arguments: Option<map<string, int>>): (t: int)
    ensures arguments.None? ==> t == TYPE_ALL
    ensures arguments.Some? && ARG_LIST_TYPE !in arguments.value ==> t == TYPE_ALL
    ensures arguments.Some? && ARG_LIST_TYPE in arguments.value ==> t == arguments.value[ARG_LIST_TYPE]
  {
    match arguments
    case None => TYPE_ALL
    case Some(bundle) => if ARG_LIST_TYPE in bundle then bundle[ARG_LIST_TYPE] else TYPE_ALL
  }

  /** The arguments `newInstance(type)` attaches to a new screen; reading them back gives the
      type that was passed in. */
  function NewInstanceArguments(listType: int): (arguments: Option<map<string, int>>)
    ensures ListTypeArgument(arguments) == listType
  {
    Some(map[ARG_LIST_TYPE := listType])
  }

  predicate Flagged(c: Cocktail)
  {
    c.isFavorite
  }

  class CocktailListFragment {
    const repository: CocktailRepository
    var listType: int

    constructor (repository: CocktailRepository)
      ensures this.repository == repository && listType == TYPE_ALL
    {
      this.repository := repository;
      listType := TYPE_ALL;
    }

    /** `onCreate`: the list type is taken from the arguments when there are any; without
        arguments the field keeps its value (TYPE_ALL on a fresh screen). */
    method OnCreate(arguments: Option<map<string, int>>)
      modifies this
      ensures arguments.Some? ==> listType == ListTypeArgument(arguments)
      ensures arguments.None? ==> listType == old(listType)
    {
      match arguments {
        case None =>
        case Some(bundle) =>
          listType := if ARG_LIST_TYPE in bundle then bundle[ARG_LIST_TYPE] else TYPE_ALL;
      }
    }

    /** The list shown without a search: popular or favorites for those codes, and the full
        list for TYPE_ALL and for every unknown code. */
    function LoadCocktails(): (r: seq<Cocktail>)
      reads this, repository
      ensures listType == TYPE_POPULAR ==> r == repository.GetPopularCocktails()
      ensures listType == TYPE_FAVORITES ==> r == repository.GetFavoriteCocktails()
      ensures listType != TYPE_POPULAR && listType != TYPE_FAVORITES ==> r == repository.GetAllCocktails()
    {
      if listType == TYPE_ALL then repository.GetAllCocktails()
      else if listType == TYPE_POPULAR then repository.GetPopularCocktails()
      else if listType == TYPE_FAVORITES then repository.GetFavoriteCocktails()
      else repository.GetAllCocktails()
    }

    /** The list shown for a search: the repository's result, cut to its first five for
        TYPE_POPULAR, cut to the flagged favorites for TYPE_FAVORITES, unchanged otherwise. */
    function SearchCocktails(query: string, fold: char -> char): (r: seq<Cocktail>)
      reads this, repository
      ensures listType == TYPE_POPULAR ==>
        var found := repository.SearchCocktails(query, fold);
        |r| == (if |found| < 5 then |found| else 5) && r == found[..|r|]
      ensures listType == TYPE_FAVORITES ==>
        var found := repository.SearchCocktails(query, fold);
        && IsSubsequence(r, found)
        && (forall i :: 0 <= i < |r| ==> r[i].isFavorite)
        && (forall i :: 0 <= i < |found| && found[i].isFavorite ==> found[i] in r)
        && (forall c :: multiset(r)[c] == if c.isFavorite then multiset(found)[c] else 0)
      ensures listType != TYPE_POPULAR && listType != TYPE_FAVORITES ==>
        r == repository.SearchCocktails(query, fold)
    {
      var found := repository.SearchCocktails(query, fold);
      if listType == TYPE_ALL then found
      else if listType == TYPE_POPULAR then Take(found, 5)
      else if listType == TYPE_FAVORITES then
        FilterIsSubsequence(found, Flagged);
        FilterCountAll(found, Flagged);
        Filter(found, Flagged)
      else found
    }
  }

  /** Searching for a blank query shows exactly the list the screen shows without a search,
      whatever the list type. */
  lemma BlankSearchShowsLoadedList(f: CocktailListFragment, query: string, fold: char -> char)
    requires IsBlank(query)
    ensures f.SearchCocktails(query, fold) == f.LoadCocktails()
  {
    if f.listType == TYPE_FAVORITES {
      var repo := f.repository;
      var all := repo.GetAllCocktails();
      var favs := repo.favorites;
      assert repo.SearchCocktails(query, fold) == all;
      FilterCongruent(all, Flagged, (c: Cocktail) => c.id in favs);
      assert repo.GetFavoriteCocktails() == Filter(all, (c: Cocktail) => c.id in favs);
    }
  }
}
