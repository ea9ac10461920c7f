/** com.lcz.bartender.presentation.favorites.FavoritesViewModel: the favorite records and the
    cocktails they name, rebuilt on every emission of the favorites table. */
module FavoritesViewModel {
  import opened Seqs
  import opened Tables
  import opened Entities
  import opened CocktailDao
  import opened FavoriteDao
  import opened FavoriteRepository

  /** The favorite names a cocktail the table holds. */
  function InTable(rows: map<string, CocktailEntity>): FavoriteEntity -> bool
  {
    (f: FavoriteEntity) => f.cocktailId in rows
  }

  /** `favoriteList.mapNotNull { getCocktailById(it.cocktailId) }`. */
  function FavoriteCocktails(favorites: seq<FavoriteEntity>, rows: map<string, CocktailEntity>): (r: seq<CocktailEntity>)
    ensures |r| <= |favorites|
    ensures forall j :: 0 <= j < |favorites| && favorites[j].cocktailId in rows ==> rows[favorites[j].cocktailId] in r
  {
    if favorites == [] then []
    else
      var rest := FavoriteCocktails(favorites[1..], rows);
      assert forall j :: 1 <= j < |favorites| ==> favorites[j] == favorites[1..][j - 1];
      if favorites[0].cocktailId in rows then [rows[favorites[0].cocktailId]] + rest else rest
  }

  /** Looks up favorites that are all known to the table. */
  function LookUp(favorites: seq<FavoriteEntity>, rows: map<string, CocktailEntity>): (r: seq<CocktailEntity>)
    requires forall j :: 0 <= j < |favorites| ==> favorites[j].cocktailId in rows
    ensures |r| == |favorites|
    ensures forall j :: 0 <= j < |favorites| ==> r[j] == rows[favorites[j].cocktailId]
  {
    if favorites == [] then [] else [rows[favorites[0].cocktailId]] + LookUp(favorites[1..], rows)
  }

  /** The shown cocktails follow the order of the favorites: they are the look-ups of exactly
      the favorites the table knows, in favorites order. */
  lemma {:induction false} FavoriteCocktailsFollowFavorites(favorites: seq<FavoriteEntity>, rows: map<string, CocktailEntity>)
    ensures forall j :: 0 <= j < |Filter(favorites, InTable(rows))| ==> Filter(favorites, InTable(rows))[j].cocktailId in rows
    ensures FavoriteCocktails(favorites, rows) == LookUp(Filter(favorites, InTable(rows)), rows)
  {
    var known := Filter(favorites, InTable(rows));
    assert forall j :: 0 <= j < |known| ==> InTable(rows)(known[j]);
    if favorites != [] {
      FavoriteCocktailsFollowFavorites(favorites[1..], rows);
    }
  }

  /** With a well-formed table every shown cocktail's id is the id of some favorite. */
  lemma ShownIdsAreFavoriteIds(favorites: seq<FavoriteEntity>, rows: map<string, CocktailEntity>, i: nat)
    requires Keyed(rows, CocktailId)
    requires i < |FavoriteCocktails(favorites, rows)|
    ensures exists j :: 0 <= j < |favorites| && favorites[j].cocktailId == FavoriteCocktails(favorites, rows)[i].id
  {
    var r := FavoriteCocktails(favorites, rows);
    var known := Filter(favorites, InTable(rows));
    FavoriteCocktailsFollowFavorites(favorites, rows);
    var f := known[i];
    assert CocktailId(rows[f.cocktailId]) == f.cocktailId;
    var j :| 0 <= j < |favorites| && favorites[j] == f;
  }

  class FavoritesViewModel {
    const favoriteRepository: FavoriteRepository
    const cocktailDao: CocktailDao
    var favoriteEntities: seq<FavoriteEntity>
    var favoriteCocktails: seq<CocktailEntity>

    ghost predicate Valid()
      reads this, cocktailDao, favoriteRepository, favoriteRepository.favoriteDao
    {
      cocktailDao.Valid() && favoriteRepository.Valid()
    }

    /** Both lists start empty. */
    constructor (favoriteRepository: FavoriteRepository, cocktailDao: CocktailDao)
      requires cocktailDao.Valid() && favoriteRepository.Valid()
      ensures Valid()
      ensures this.favoriteRepository == favoriteRepository && this.cocktailDao == cocktailDao
      ensures favoriteEntities == [] && favoriteCocktails == []
    {
      this.favoriteRepository := favoriteRepository;
      this.cocktailDao := cocktailDao;
      favoriteEntities := [];
      favoriteCocktails := [];
    }

    /** One emission of `getAllFavorites()`: `_favoriteEntities` becomes the emitted list (newest
        first) and `_favoriteCocktails` the cocktails it names. */
    method CollectFavorites()
      requires Valid()
      modifies this
      ensures Valid()
      ensures Lists(favoriteRepository.favoriteDao.rows, AnyFavorite, FavoriteKey, NewerFirst, favoriteEntities)
      ensures favoriteCocktails == FavoriteCocktails(favoriteEntities, cocktailDao.rows)
    {
      var favoriteList := favoriteRepository.GetAllFavorites();
      favoriteEntities := favoriteList;
      favoriteCocktails := FavoriteCocktails(favoriteList, cocktailDao.rows);
    }

    /** `removeFavorite`: deletes only that cocktail's record. */
    method RemoveFavorite(cocktailId: string)
      requires Valid()
      modifies favoriteRepository.favoriteDao
      ensures Valid()
      ensures favoriteRepository.favoriteDao.rows == WithoutFavorite(old(favoriteRepository.favoriteDao.rows), cocktailId)
    {
      favoriteRepository.RemoveFavorite(cocktailId);
    }
  }
}
