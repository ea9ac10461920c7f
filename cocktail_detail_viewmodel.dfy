/** com.lcz.bartender.presentation.cocktaildetail.CocktailDetailViewModel: one cocktail looked up
    by id and a favorite flag that the screen keeps in step with the favorites table. */
module CocktailDetailViewModel {
  import opened Wrappers
  import opened Entities
  import opened SavedState
  import opened CocktailDao
  import opened FavoriteRepository

  class CocktailDetailViewModel {
    const cocktailId: string
    const cocktailDao: CocktailDao
    const favoriteRepository: FavoriteRepository
    var cocktail: Option<CocktailEntity>
    var isFavorite: bool

    ghost predicate Valid()
      reads this, cocktailDao, favoriteRepository, favoriteRepository.favoriteDao
    {
      cocktailDao.Valid() && favoriteRepository.Valid()
    }

    /** The flag agrees with the favorites table. */
    ghost predicate InStep()
      reads this, favoriteRepository, favoriteRepository.favoriteDao
    {
      isFavorite == (cocktailId in favoriteRepository.favoriteDao.rows)
    }

    /** `_cocktail` starts null and `_isFavorite` false. */
    constructor (cocktailId: string, cocktailDao: CocktailDao, favoriteRepository: FavoriteRepository)
      requires cocktailDao.Valid() && favoriteRepository.Valid()
      ensures Valid()
      ensures this.cocktailId == cocktailId
      ensures this.cocktailDao == cocktailDao && this.favoriteRepository == favoriteRepository
      ensures cocktail == None && !isFavorite
    {
      this.cocktailId := cocktailId;
      this.cocktailDao := cocktailDao;
      this.favoriteRepository := favoriteRepository;
      cocktail := None;
      isFavorite := false;
    }

    /** Construction from the navigation arguments: `IllegalArgumentException` without a
        `cocktailId`. */
    static method Create(savedState: map<string, string>, cocktailDao: CocktailDao, favoriteRepository: FavoriteRepository)
      returns (r: Result<CocktailDetailViewModel, ArgumentError>)
      requires cocktailDao.Valid() && favoriteRepository.Valid()
      ensures r.Failure? <==> "cocktailId" !in savedState
      ensures r.Failure? ==> r.error == IllegalArgumentException("cocktailId is required")
      ensures r.Success? ==> fresh(r.value) && r.value.Valid()
      ensures r.Success? ==> r.value.cocktailId == savedState["cocktailId"]
      ensures r.Success? ==> r.value.cocktail == None && !r.value.isFavorite
      ensures r.Success? ==> r.value.cocktailDao == cocktailDao && r.value.favoriteRepository == favoriteRepository
    {
      var argument := RequiredArgument(savedState, "cocktailId");
      if argument.Failure? {
        return Failure(argument.error);
      }
      var viewModel := new CocktailDetailViewModel(argument.value, cocktailDao, favoriteRepository);
      return Success(viewModel);
    }

    /** `loadCocktailDetail`: `_cocktail` becomes the lookup result, null when the id is unknown. */
    method LoadCocktailDetail()
      requires Valid()
      modifies this
      ensures Valid()
      ensures cocktail.Some? <==> cocktailId in cocktailDao.rows
      ensures cocktail.Some? ==> cocktail.value == cocktailDao.rows[cocktailId] && cocktail.value.id == cocktailId
      ensures isFavorite == old(isFavorite)
    {
      cocktail := cocktailDao.GetCocktailById(cocktailId);
    }

    /** `checkFavoriteStatus`: `_isFavorite` becomes membership in the favorites table. */
    method CheckFavoriteStatus()
      requires Valid()
      modifies this
      ensures Valid() && InStep()
      ensures cocktail == old(cocktail)
    {
      isFavorite := favoriteRepository.IsFavorite(cocktailId);
    }

    /** `toggleFavoriteStatus`: removes the favorite when the flag is set and adds it (stamped
        `now`) otherwise, then negates the flag. Flag and table end in step even when the flag was
        stale before the toggle. */
    method ToggleFavoriteStatus(now: int)
      requires Valid()
      modifies this, favoriteRepository.favoriteDao
      ensures Valid()
      ensures isFavorite == !old(isFavorite)
      ensures favoriteRepository.favoriteDao.rows == Toggled(old(favoriteRepository.favoriteDao.rows), cocktailId, old(isFavorite), now)
      ensures InStep()
      ensures cocktail == old(cocktail)
    {
      if isFavorite {
        favoriteRepository.RemoveFavorite(cocktailId);
      } else {
        favoriteRepository.AddFavorite(cocktailId, now);
      }
      isFavorite := !isFavorite;
    }
  }
}
