/** The legacy repository (com.example.bartender.repository.CocktailRepository): an in-memory
    list of cocktails and a set of favorite ids, with the queries every legacy screen uses. */
module LegacyRepository {
  import opened Wrappers
  import opened Seqs
  import opened Text
  import opened LegacyModel

  /** The difficulty labels of the catalog: "简单" (simple), "中等" (medium), "复杂" (complex). */
  const LABEL_SIMPLE: string := "\U{7B80}\U{5355}"
  const LABEL_MEDIUM: string := "\U{4E2D}\U{7B49}"
  const LABEL_COMPLEX: string := "\U{590D}\U{6742}"

  /** The `!!` on a null `flavorDescription` throws. */
  datatype ConversionError = NullFlavorDescription

  /** The difficulty label mapped to the enum: only the medium and complex labels map away from
      EASY; the simple label, any other label and a missing label all give EASY. */
  function ParseDifficulty(level: Option<string>): (d: Difficulty)
    ensures d == MEDIUM <==> level == Some(LABEL_MEDIUM)
    ensures d == HARD <==> level == Some(LABEL_COMPLEX)
    ensures d == EASY <==> level != Some(LABEL_MEDIUM) && level != Some(LABEL_COMPLEX)
  {
    match level
    case Some(s) =>
      if s == LABEL_SIMPLE then EASY
      else if s == LABEL_MEDIUM then MEDIUM
      else if s == LABEL_COMPLEX then HARD
      else EASY
    case None => EASY
  }

  /** The amount shown for an ingredient: amount and unit separated by a space, trimmed. */
  function AmountText(amount: string, unit: string): string
  {
    Trim(amount + " " + unit)
  }

  /** A trimmed amount with a trimmed unit reads "amount unit". */
  lemma AmountWithUnit(amount: string, unit: string)
    requires amount != [] && !IsWhitespace(amount[0]) && !IsWhitespace(amount[|amount| - 1])
    requires unit != [] && !IsWhitespace(unit[0]) && !IsWhitespace(unit[|unit| - 1])
    ensures AmountText(amount, unit) == amount + " " + unit
  {
    TrimOfTrimmed(amount + " " + unit);
  }

  /** A trimmed amount without a unit (as "适量", "to taste", is stored) reads as the amount alone:
      the separating space is trimmed away. */
  lemma AmountWithoutUnit(amount: string)
    requires amount != [] && !IsWhitespace(amount[0]) && !IsWhitespace(amount[|amount| - 1])
    ensures AmountText(amount, "") == amount
  {
    var s := amount + " " + "";
    assert s[..|s| - 1] == amount;
    assert TrailingSpace(amount) == 0;
    assert TrailingSpace(s) == 1;
    assert LeadingSpace(s) == 0;
  }

  function ToIngredient(a: IngredientAmount): Ingredient
  {
    Ingredient(a.ingredientId, AmountText(a.amount, a.unit))
  }

  function ToIngredients(amounts: seq<IngredientAmount>): (r: seq<Ingredient>)
    ensures |r| == |amounts|
    ensures forall i :: 0 <= i < |r| ==>
      r[i].name == amounts[i].ingredientId && r[i].amount == AmountText(amounts[i].amount, amounts[i].unit)
  {
    if amounts == [] then [] else [ToIngredient(amounts[0])] + ToIngredients(amounts[1..])
  }

  /** `CocktailEntity.toCocktail`: converts a catalog record. The int id is the string id's
      `hashCode`; the description is the flavor list joined with ", ", which fails when the list
      is null. */
  function ToCocktail(e: CatalogRecord): (r: Result<Cocktail, ConversionError>)
    ensures r.Failure? <==> e.flavorDescription.None?
    ensures r.Success? ==>
      && r.value.id == JavaHashCode(e.id)
      && r.value.name == e.name
      && r.value.description == Join(e.flavorDescription.value, ", ")
      && r.value.imageUrl == e.imageUrl
      && r.value.difficulty == ParseDifficulty(e.difficulty)
      && |r.value.ingredients| == |e.ingredients|
      && (forall i :: 0 <= i < |e.ingredients| ==>
            r.value.ingredients[i] == Ingredient(e.ingredients[i].ingredientId,
                                                 AmountText(e.ingredients[i].amount, e.ingredients[i].unit)))
      && r.value.instructions == e.preparationSteps
      && !r.value.isFavorite
  {
    match e.flavorDescription
    case None => Failure(NullFlavorDescription)
    case Some(flavors) =>
      Success(Cocktail(
        JavaHashCode(e.id), e.name, Join(flavors, ", "), e.imageUrl,
        ParseDifficulty(e.difficulty), ToIngredients(e.ingredients), e.preparationSteps, false))
  }

  /** Every record of the catalog can be converted. */
  predicate Convertible(catalog: seq<CatalogRecord>)
  {
    forall i :: 0 <= i < |catalog| ==> catalog[i].flavorDescription.Some?
  }

  function ConvertAll(catalog: seq<CatalogRecord>): (r: seq<Cocktail>)
    requires Convertible(catalog)
    ensures |r| == |catalog|
    ensures forall i :: 0 <= i < |r| ==> ToCocktail(catalog[i]) == Success(r[i])
  {
    if catalog == [] then [] else [ToCocktail(catalog[0]).value] + ConvertAll(catalog[1..])
  }

  /** Every cocktail with its favorite flag set to membership of its id in `favorites`. */
  function WithFlags(cocktails: seq<Cocktail>, favorites: set<int>): (r: seq<Cocktail>)
  {
    if cocktails == [] then []
    else [cocktails[0].(isFavorite := cocktails[0].id in favorites)] + WithFlags(cocktails[1..], favorites)
  }

  lemma {:induction false} WithFlagsAt(cocktails: seq<Cocktail>, favorites: set<int>)
    ensures |WithFlags(cocktails, favorites)| == |cocktails|
    ensures forall i :: 0 <= i < |cocktails| ==>
      WithFlags(cocktails, favorites)[i] == cocktails[i].(isFavorite := cocktails[i].id in favorites)
  {
    if cocktails != [] {
      WithFlagsAt(cocktails[1..], favorites);
    }
  }

  /** The position of the first cocktail with id `id`, or the length when there is none. */
  function FirstWithId(cocktails: seq<Cocktail>, id: int): (k: nat)
    ensures k <= |cocktails|
    ensures forall j :: 0 <= j < k ==> cocktails[j].id != id
    ensures k < |cocktails| ==> cocktails[k].id == id
  {
    if cocktails == [] || cocktails[0].id == id then 0 else 1 + FirstWithId(cocktails[1..], id)
  }

  /** The search condition: the query occurs, ignoring case, in the name, the description or the
      name of some ingredient. */
  predicate MatchesQuery(c: Cocktail, query: string, fold: char -> char)
  {
    || ContainsFolded(c.name, query, fold)
    || ContainsFolded(c.description, query, fold)
    || exists k :: 0 <= k < |c.ingredients| && ContainsFolded(c.ingredients[k].name, query, fold)
  }

  /** `favorites` with `id` added when absent and removed when present. */
  function Toggled(favorites: set<int>, id: int): (r: set<int>)
    ensures id in r <==> id !in favorites
    ensures forall x :: x != id ==> (x in r <==> x in favorites)
  {
    if id in favorites then favorites - {id} else favorites + {id}
  }

  lemma ToggleTwice(favorites: set<int>, id: int)
    ensures Toggled(Toggled(favorites, id), id) == favorites
  {
  }

  /** `n` toggles of the same id in a row. */
  function ToggledTimes(favorites: set<int>, id: int, n: nat): set<int>
  {
    if n == 0 then favorites else Toggled(ToggledTimes(favorites, id, n - 1), id)
  }

  /** After `n` toggles, starting from not favorite, the id is a favorite exactly when `n` is odd;
      no other id changes. */
  lemma {:induction false} ToggledTimesParity(favorites: set<int>, id: int, n: nat)
    ensures (id in ToggledTimes(favorites, id, n)) <==> ((id in favorites) != (n % 2 == 1))
    ensures forall x :: x != id ==> (x in ToggledTimes(favorites, id, n) <==> x in favorites)
  {
    if n > 0 {
      ToggledTimesParity(favorites, id, n - 1);
    }
  }

  /** The ids held in the saved preference array; none when nothing was saved. */
  function SavedIds(saved: Option<seq<int>>): set<int>
  {
    if saved.None? then {} else set i | 0 <= i < |saved.value| :: saved.value[i]
  }

  /** `loadFavoritesFromPreferences`: adds the saved ids one by one, in array order. */
  method LoadFavorites(saved: Option<seq<int>>) returns (favorites: set<int>)
    ensures saved.None? ==> favorites == {}
    ensures saved.Some? ==> forall i :: 0 <= i < |saved.value| ==> saved.value[i] in favorites
    ensures forall x :: x in favorites ==> saved.Some? && x in saved.value
    ensures favorites == SavedIds(saved)
  {
    favorites := {};
    if saved.Some? {
      var ids := saved.value;
      for i := 0 to |ids|
        invariant favorites == set j | 0 <= j < i :: ids[j]
      {
        favorites := favorites + {ids[i]};
      }
    }
  }

  class CocktailRepository {
    var cocktails: seq<Cocktail>
    var favorites: set<int>

    /** Loads the saved favorite ids (the decoded preference array, absent on first start) and
        then converts the static catalog. */
    constructor (savedFavorites: Option<seq<int>>, catalog: seq<CatalogRecord>)
      requires Convertible(catalog)
      ensures favorites == SavedIds(savedFavorites)
      ensures |cocktails| == |catalog|
      ensures forall i :: 0 <= i < |catalog| ==> ToCocktail(catalog[i]) == Success(cocktails[i])
    {
      var loaded := LoadFavorites(savedFavorites);
      favorites := loaded;
      cocktails := ConvertAll(catalog);
    }

    /** Every stored cocktail, once each and in stored order, flagged as favorite exactly when its
        id is in the favorite set. */
    function GetAllCocktails(): (r: seq<Cocktail>)
      reads this
      ensures |r| == |cocktails|
      ensures forall i :: 0 <= i < |r| ==>
        r[i] == cocktails[i].(isFavorite := cocktails[i].id in favorites)
    {
      WithFlagsAt(cocktails, favorites);
      WithFlags(cocktails, favorites)
    }

    /** The first five of the full list (all of it when shorter). */
    function GetPopularCocktails(): (r: seq<Cocktail>)
      reads this
      ensures |r| == if |cocktails| < 5 then |cocktails| else 5
      ensures r == GetAllCocktails()[..|r|]
    {
      Take(GetAllCocktails(), 5)
    }

    /** The favorites, in stored order, all flagged as favorite. */
    function GetFavoriteCocktails(): (r: seq<Cocktail>)
      reads this
      ensures IsSubsequence(r, GetAllCocktails())
      ensures forall i :: 0 <= i < |r| ==> r[i].id in favorites && r[i].isFavorite
      ensures forall i :: 0 <= i < |cocktails| && cocktails[i].id in favorites ==> GetAllCocktails()[i] in r
      ensures forall c :: multiset(r)[c] == if c.id in favorites then multiset(GetAllCocktails())[c] else 0
    {
      var favs := favorites;
      var all := GetAllCocktails();
      FilterIsSubsequence(all, (c: Cocktail) => c.id in favs);
      FilterCountAll(all, (c: Cocktail) => c.id in favs);
      Filter(all, (c: Cocktail) => c.id in favs)
    }

    /** The first cocktail with the given id, or none; ids come from a hash and may collide. */
    function GetCocktailById(id: int): (r: Option<Cocktail>)
      reads this
      ensures r.None? <==> forall i :: 0 <= i < |cocktails| ==> cocktails[i].id != id
      ensures r.Some? ==> exists k :: (0 <= k < |cocktails| && r.value == GetAllCocktails()[k]
        && cocktails[k].id == id && forall j :: 0 <= j < k ==> cocktails[j].id != id)
    {
      var all := GetAllCocktails();
      var k := FirstWithId(cocktails, id);
      if k < |cocktails| then Some(all[k]) else None
    }

    /** A blank query gives the full list; any other query keeps, in order, the cocktails that
        match it in name, description or an ingredient name, ignoring case. */
    function SearchCocktails(query: string, fold: char -> char): (r: seq<Cocktail>)
      reads this
      ensures IsBlank(query) ==> r == GetAllCocktails()
      ensures !IsBlank(query) ==> IsSubsequence(r, GetAllCocktails())
      ensures !IsBlank(query) ==> forall i :: 0 <= i < |r| ==> MatchesQuery(r[i], query, fold)
      ensures !IsBlank(query) ==> forall i :: 0 <= i < |cocktails| && MatchesQuery(cocktails[i], query, fold) ==>
        GetAllCocktails()[i] in r
      ensures !IsBlank(query) ==>
        forall c :: multiset(r)[c] == (if MatchesQuery(c, query, fold) then multiset(GetAllCocktails())[c] else 0)
    {
      var all := GetAllCocktails();
      if IsBlank(query) then all
      else
        FilterIsSubsequence(all, (c: Cocktail) => MatchesQuery(c, query, fold));
        FilterCountAll(all, (c: Cocktail) => MatchesQuery(c, query, fold));
        Filter(all, (c: Cocktail) => MatchesQuery(c, query, fold))
    }

    /** Adds the id to the favorites when absent, removes it when present (and saves the set). */
    method ToggleFavorite(id: int)
      modifies this
      ensures favorites == Toggled(old(favorites), id)
      ensures cocktails == old(cocktails)
    {
      if id in favorites {
        favorites := favorites - {id};
      } else {
        favorites := favorites + {id};
      }
    }
  }
}
