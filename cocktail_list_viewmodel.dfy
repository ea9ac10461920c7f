/** com.lcz.bartender.presentation.cocktaillist.CocktailListViewModel: the cocktails of one
    category, each paired with whether its id is among the favorite ids; each reactive emission
    is one step that replaces a field. */
module CocktailListViewModel {
  import opened Wrappers
  import opened Tables
  import opened Entities
  import opened SavedState
  import opened CocktailDao
  import opened FavoriteRepository

  /** The `combine` mapping: every cocktail, in order, flagged with membership of its id. */
  function WithFavoriteStatus(cocktails: seq<CocktailEntity>, favoriteIds: seq<string>): (r: seq<CocktailWithFavoriteStatus>)
    ensures |r| == |cocktails|
    ensures forall i :: 0 <= i < |r| ==> r[i].cocktail == cocktails[i]
    ensures forall i :: 0 <= i < |r| ==> (r[i].isFavorite <==> cocktails[i].id in favoriteIds)
  {
    if cocktails == [] then []
    else [CocktailWithFavoriteStatus(cocktails[0], cocktails[0].id in favoriteIds)]
         + WithFavoriteStatus(cocktails[1..], favoriteIds)
  }

  /** The cocktails of a paired list, flags dropped. */
  function CocktailsOf(paired: seq<CocktailWithFavoriteStatus>): (r: seq<CocktailEntity>)
    ensures |r| == |paired|
  {
    if paired == [] then [] else [paired[0].cocktail] + CocktailsOf(paired[1..])
  }

  /** Dropping the flags gives back the cocktail list, whatever the favorite ids: a new
      favorite-id emission changes flags only, never which cocktails are shown or their order. */
  lemma {:induction false} PairingKeepsCocktails(cocktails: seq<CocktailEntity>, favoriteIds: seq<string>)
    ensures CocktailsOf(WithFavoriteStatus(cocktails, favoriteIds)) == cocktails
  {
    if cocktails != [] {
      PairingKeepsCocktails(cocktails[1..], favoriteIds);
      assert WithFavoriteStatus(cocktails, favoriteIds)[1..] == WithFavoriteStatus(cocktails[1..], favoriteIds);
    }
  }

  /** When the id list is the favorites table's key set (as `getAllFavoriteCocktailIds` emits it),
      each flag is membership in the table. */
  lemma FlagFollowsTable(cocktails: seq<CocktailEntity>, favoriteIds: seq<string>, favorites: map<string, FavoriteEntity>, i: nat)
    requires forall j :: 0 <= j < |favoriteIds| ==> favoriteIds[j] in favorites
    requires forall k :: k in favorites ==> k in favoriteIds
    requires i < |cocktails|
    ensures WithFavoriteStatus(cocktails, favoriteIds)[i].isFavorite <==> cocktails[i].id in favorites
  {
  }

  const MOJITO: CocktailEntity :=
      CocktailEntity(
        id := "mojito",
        name := "\U{83AB}\U{5409}\U{6258}",
        categoryId := "cocktail",
        imageUrl := "https://placehold.co/150x150/000000/FFFFFF?text=Mojito",
        preparationSteps := ["\U{5C06}\U{8584}\U{8377}\U{53F6}\U{548C}\U{9752}\U{67E0}\U{89D2}\U{653E}\U{5165}\U{676F}\U{4E2D}...", "\U{52A0}\U{5165}\U{6717}\U{59C6}\U{9152}\U{548C}\U{7CD6}\U{6D46}...", "\U{5012}\U{5165}\U{82CF}\U{6253}\U{6C34}\U{5E76}\U{6405}\U{62CC}\U{3002}"],
        ingredients := [
          IngredientAmount("rum", "2", "oz"),
          IngredientAmount("lime_juice", "1", "oz"),
          IngredientAmount("mint_leaves", "6", "\U{7247}"),
          IngredientAmount("sugar_syrup", "0.75", "oz"),
          IngredientAmount("soda_water", "\U{9002}\U{91CF}", "")],
        flavorDescription := Some(["\U{751C}", "\U{9178}", "\U{6E05}\U{723D}", "\U{8349}\U{672C}", "\U{67D1}\U{6A58}"]),
        difficulty := Some("\U{7B80}\U{5355}"),
        alcoholStrength := Some("\U{4E2D}\U{5EA6}"),
        recommendedGlass := Some("\U{6D77}\U{6CE2}\U{676F}"),
        history := Some("\U{8D77}\U{6E90}\U{4E8E}\U{53E4}\U{5DF4}\U{FF0C}\U{662F}\U{6D77}\U{660E}\U{5A01}\U{6700}\U{7231}\U{7684}\U{996E}\U{54C1}\U{4E4B}\U{4E00}\U{3002}"))

  const MARGARITA: CocktailEntity :=
      CocktailEntity(
        id := "margarita",
        name := "\U{739B}\U{683C}\U{4E3D}\U{7279}",
        categoryId := "cocktail",
        imageUrl := "https://placehold.co/150x150/000000/FFFFFF?text=Margarita",
        preparationSteps := ["\U{7528}\U{76D0}\U{5728}\U{676F}\U{6CBF}\U{505A}\U{88C5}\U{9970}...", "\U{5C06}\U{9F99}\U{820C}\U{5170}\U{3001}\U{6A59}\U{5473}\U{5229}\U{53E3}\U{9152}\U{548C}\U{9752}\U{67E0}\U{6C41}\U{6DF7}\U{5408}...", "\U{6447}\U{5300}\U{5E76}\U{5012}\U{5165}\U{676F}\U{4E2D}\U{3002}"],
        ingredients := [
          IngredientAmount("tequila", "2", "oz"),
          IngredientAmount("orange_liqueur", "1", "oz"),
          IngredientAmount("lime_juice", "0.75", "oz")],
        flavorDescription := Some(["\U{9178}", "\U{751C}", "\U{67D1}\U{6A58}", "\U{70C8}\U{6027}"]),
        difficulty := Some("\U{4E2D}\U{7B49}"),
        alcoholStrength := Some("\U{70C8}\U{6027}"),
        recommendedGlass := Some("\U{739B}\U{683C}\U{4E3D}\U{7279}\U{676F}"),
        history := Some("\U{5173}\U{4E8E}\U{739B}\U{683C}\U{4E3D}\U{7279}\U{7684}\U{8D77}\U{6E90}\U{6709}\U{591A}\U{79CD}\U{8BF4}\U{6CD5}\U{FF0C}\U{6700}\U{6D41}\U{884C}\U{7684}\U{662F}\U{5728}\U{58A8}\U{897F}\U{54E5}\U{53D1}\U{660E}\U{3002}"))

  const RED_WINE: CocktailEntity :=
      CocktailEntity(
        id := "red_wine",
        name := "\U{7EA2}\U{8461}\U{8404}\U{9152}",
        categoryId := "wine",
        imageUrl := "https://placehold.co/150x150/000000/FFFFFF?text=RedWine",
        preparationSteps := ["\U{5012}\U{5165}\U{7EA2}\U{8461}\U{8404}\U{9152}\U{3002}"],
        ingredients := [
          IngredientAmount("red_wine", "\U{9002}\U{91CF}", "")],
        flavorDescription := Some(["\U{5E72}", "\U{679C}\U{9999}", "\U{5355}\U{5B81}"]),
        difficulty := Some("\U{7B80}\U{5355}"),
        alcoholStrength := Some("\U{4E2D}\U{5EA6}"),
        recommendedGlass := Some("\U{7EA2}\U{9152}\U{676F}"),
        history := Some("\U{8461}\U{8404}\U{9152}\U{662F}\U{4E16}\U{754C}\U{4E0A}\U{6700}\U{53E4}\U{8001}\U{7684}\U{996E}\U{54C1}\U{4E4B}\U{4E00}\U{3002}"))

  /** The `when (categoryId)` selection of `insertSampleCocktails`. */
  function SampleCocktails(categoryId: string): (r: seq<CocktailEntity>)
    ensures forall i :: 0 <= i < |r| ==> r[i].categoryId == categoryId
    ensures categoryId == "cocktail" ==> |r| == 2 && r[0].id == "mojito" && r[1].id == "margarita"
    ensures categoryId == "wine" ==> |r| == 1 && r[0].id == "red_wine"
    ensures categoryId != "cocktail" && categoryId != "wine" ==> r == []
  {
    match categoryId
    case "cocktail" => [MOJITO, MARGARITA]
    case "wine" => [RED_WINE]
    case _ => []
  }

  /** Inserting the samples of a category adds exactly the sample ids to the table's keys. */
  lemma SampleInsertKeys(rows: map<string, CocktailEntity>, categoryId: string)
    ensures Upsert(rows, SampleCocktails(categoryId), CocktailId).Keys ==
      rows.Keys + (if categoryId == "cocktail" then {"mojito", "margarita"}
                   else if categoryId == "wine" then {"red_wine"}
                   else {})
  {
    var batch := SampleCocktails(categoryId);
    if categoryId == "cocktail" {
      assert KeysOf(batch, CocktailId) == {"mojito", "margarita"} by {
        assert CocktailId(batch[0]) == "mojito" && CocktailId(batch[1]) == "margarita";
      }
    } else if categoryId == "wine" {
      assert KeysOf(batch, CocktailId) == {"red_wine"} by {
        assert CocktailId(batch[0]) == "red_wine";
      }
    }
  }

  class CocktailListViewModel {
    const categoryId: string
    const cocktailDao: CocktailDao
    const favoriteRepository: FavoriteRepository
    var cocktails: seq<CocktailEntity>
    var favoriteCocktailIds: seq<string>
    var cocktailsWithFavoriteStatus: seq<CocktailWithFavoriteStatus>

    /** The stores are well formed and the combined list is the pairing of the two emitted lists. */
    ghost predicate Valid()
      reads this, cocktailDao, favoriteRepository, favoriteRepository.favoriteDao
    {
      && cocktailDao.Valid()
      && favoriteRepository.Valid()
      && cocktailsWithFavoriteStatus == WithFavoriteStatus(cocktails, favoriteCocktailIds)
    }

    /** All three lists start empty. */
    constructor (categoryId: string, cocktailDao: CocktailDao, favoriteRepository: FavoriteRepository)
      requires cocktailDao.Valid() && favoriteRepository.Valid()
      ensures Valid()
      ensures this.categoryId == categoryId
      ensures this.cocktailDao == cocktailDao && this.favoriteRepository == favoriteRepository
      ensures cocktails == [] && favoriteCocktailIds == [] && cocktailsWithFavoriteStatus == []
    {
      this.categoryId := categoryId;
      this.cocktailDao := cocktailDao;
      this.favoriteRepository := favoriteRepository;
      cocktails := [];
      favoriteCocktailIds := [];
      cocktailsWithFavoriteStatus := [];
    }

    /** Construction from the navigation arguments: `IllegalArgumentException` without a
        `categoryId`. */
    static method Create(savedState: map<string, string>, cocktailDao: CocktailDao, favoriteRepository: FavoriteRepository)
      returns (r: Result<CocktailListViewModel, ArgumentError>)
      requires cocktailDao.Valid() && favoriteRepository.Valid()
      ensures r.Failure? <==> "categoryId" !in savedState
      ensures r.Failure? ==> r.error == IllegalArgumentException("categoryId is required")
      ensures r.Success? ==> fresh(r.value) && r.value.Valid()
      ensures r.Success? ==> r.value.categoryId == savedState["categoryId"]
      ensures r.Success? ==> r.value.cocktails == [] && r.value.favoriteCocktailIds == []
      ensures r.Success? ==> r.value.cocktailDao == cocktailDao && r.value.favoriteRepository == favoriteRepository
    {
      var argument := RequiredArgument(savedState, "categoryId");
      if argument.Failure? {
        return Failure(argument.error);
      }
      var viewModel := new CocktailListViewModel(argument.value, cocktailDao, favoriteRepository);
      return Success(viewModel);
    }

    /** One emission of `getCocktailsByCategoryId(categoryId)` reaching `_cocktails`. */
    method CollectCocktails()
      requires Valid()
      modifies this
      ensures Valid()
      ensures Lists(cocktailDao.rows, InCategory(categoryId), CocktailId, ByName, cocktails)
      ensures favoriteCocktailIds == old(favoriteCocktailIds)
    {
      cocktails := cocktailDao.GetCocktailsByCategoryId(categoryId);
      cocktailsWithFavoriteStatus := WithFavoriteStatus(cocktails, favoriteCocktailIds);
    }

    /** One emission of `getAllFavoriteCocktailIds()` reaching `_favoriteCocktailIds`: the
        cocktails shown stay the same and every flag becomes membership in the table. */
    method CollectFavoriteCocktailIds()
      requires Valid()
      modifies this
      ensures Valid()
      ensures cocktails == old(cocktails)
      ensures CocktailsOf(cocktailsWithFavoriteStatus) == old(CocktailsOf(cocktailsWithFavoriteStatus))
      ensures forall i :: 0 <= i < |cocktailsWithFavoriteStatus| ==>
        (cocktailsWithFavoriteStatus[i].isFavorite <==> cocktails[i].id in favoriteRepository.favoriteDao.rows)
    {
      favoriteCocktailIds := favoriteRepository.GetAllFavoriteCocktailIds();
      cocktailsWithFavoriteStatus := WithFavoriteStatus(cocktails, favoriteCocktailIds);
      PairingKeepsCocktails(cocktails, old(favoriteCocktailIds));
      PairingKeepsCocktails(cocktails, favoriteCocktailIds);
    }

    /** `toggleFavoriteStatus(cocktailId, isFavorite)`: removes the favorite when the caller says
        it is one and adds it (stamped `now`) otherwise; the shown lists wait for the next emission. */
    method ToggleFavoriteStatus(cocktailId: string, isFavorite: bool, now: int)
      requires Valid()
      modifies favoriteRepository.favoriteDao
      ensures Valid()
      ensures favoriteRepository.favoriteDao.rows == Toggled(old(favoriteRepository.favoriteDao.rows), cocktailId, isFavorite, now)
    {
      if isFavorite {
        favoriteRepository.RemoveFavorite(cocktailId);
      } else {
        favoriteRepository.AddFavorite(cocktailId, now);
      }
    }

    /** `insertSampleCocktails(categoryId)`: upserts the samples of that category. */
    method InsertSampleCocktails(categoryId: string)
      requires Valid()
      modifies cocktailDao
      ensures Valid()
      ensures cocktailDao.rows == Upsert(old(cocktailDao.rows), SampleCocktails(categoryId), CocktailId)
    {
      var sampleCocktails := SampleCocktails(categoryId);
      cocktailDao.InsertAllCocktails(sampleCocktails);
    }
  }
}
