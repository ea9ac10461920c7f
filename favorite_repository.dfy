/** com.lcz.bartender.data.repository.FavoriteRepository: favorites as the key set of the
    favorites table, added with the current time and removed by id. */
module FavoriteRepository {
  import opened Wrappers
  import opened Entities
  import opened Tables
  import opened FavoriteDao

  /** The table after `addFavorite(cocktailId)` at time `now`: a fresh record without a user,
      replacing any earlier record of that cocktail. */
  function WithFavorite(rows: map<string, FavoriteEntity>, cocktailId: string, now: int): (r: map<string, FavoriteEntity>)
    ensures r.Keys == rows.Keys + {cocktailId}
    ensures r[cocktailId] == FavoriteEntity(cocktailId, None, now)
    ensures forall k :: k in rows && k != cocktailId ==> r[k] == rows[k]
    ensures Keyed(rows, FavoriteKey) ==> Keyed(r, FavoriteKey)
  {
    rows[cocktailId := FavoriteEntity(cocktailId, None, now)]
  }

  /** The table after `removeFavorite(cocktailId)`. */
  function WithoutFavorite(rows: map<string, FavoriteEntity>, cocktailId: string): (r: map<string, FavoriteEntity>)
    ensures r.Keys == rows.Keys - {cocktailId}
    ensures forall k :: k in r ==> r[k] == rows[k]
    ensures cocktailId !in rows ==> r == rows
    ensures Keyed(rows, FavoriteKey) ==> Keyed(r, FavoriteKey)
  {
    rows - {cocktailId}
  }

  /** The table after a screen's favorite toggle: `removeFavorite` when the screen believes the
      cocktail is a favorite, `addFavorite` otherwise. */
  function Toggled(rows: map<string, FavoriteEntity>, cocktailId: string, isFavorite: bool, now: int): (r: map<string, FavoriteEntity>)
    ensures (cocktailId in r) == !isFavorite
    ensures forall k :: k != cocktailId ==> (k in r <==> k in rows)
    ensures forall k :: k in rows && k != cocktailId ==> r[k] == rows[k]
    ensures Keyed(rows, FavoriteKey) ==> Keyed(r, FavoriteKey)
  {
    if isFavorite then WithoutFavorite(rows, cocktailId) else WithFavorite(rows, cocktailId, now)
  }

  class FavoriteRepository {
    const favoriteDao: FavoriteDao

    ghost predicate Valid()
      reads this, favoriteDao
    {
      favoriteDao.Valid()
    }

    constructor (favoriteDao: FavoriteDao)
      requires favoriteDao.Valid()
      ensures this.favoriteDao == favoriteDao && Valid()
    {
      this.favoriteDao := favoriteDao;
    }

    /** `getAllFavorites`: every record, most recently collected first. */
    method GetAllFavorites() returns (r: seq<FavoriteEntity>)
      requires Valid()
      ensures Lists(favoriteDao.rows, AnyFavorite, FavoriteKey, NewerFirst, r)
      ensures |r| == |favoriteDao.rows|
    {
      r := favoriteDao.GetAllFavorites();
    }

    /** `addFavorite`: stores a record stamped with `now` (the `Date()` of the call). */
    method AddFavorite(cocktailId: string, now: int)
      requires Valid()
      modifies favoriteDao
      ensures Valid()
      ensures favoriteDao.rows == WithFavorite(old(favoriteDao.rows), cocktailId, now)
    {
      favoriteDao.InsertFavorite(FavoriteEntity(cocktailId, None, now));
    }

    /** `removeFavorite`: deletes the record of that cocktail, if any. */
    method RemoveFavorite(cocktailId: string)
      requires Valid()
      modifies favoriteDao
      ensures Valid()
      ensures favoriteDao.rows == WithoutFavorite(old(favoriteDao.rows), cocktailId)
    {
      favoriteDao.DeleteFavoriteById(cocktailId);
    }

    /** `isFavorite`: whether the table holds a record for that cocktail. */
    method IsFavorite(cocktailId: string) returns (b: bool)
      ensures b <==> cocktailId in favoriteDao.rows
    {
      b := favoriteDao.GetFavoriteById(cocktailId) != None;
    }

    /** `getAllFavoriteCocktailIds`: the key set, each once. */
    method GetAllFavoriteCocktailIds() returns (ids: seq<string>)
      ensures forall i :: 0 <= i < |ids| ==> ids[i] in favoriteDao.rows
      ensures forall k :: k in favoriteDao.rows ==> k in ids
      ensures forall i, j :: 0 <= i < j < |ids| ==> ids[i] != ids[j]
    {
      ids := favoriteDao.GetAllFavoriteCocktailIds();
    }
  }

  /** Right after `addFavorite(id)` the id is a favorite; right after `removeFavorite(id)` it is not;
      neither touches the membership of any other id. */
  lemma AddedIsFavoriteRemovedIsNot(rows: map<string, FavoriteEntity>, cocktailId: string, other: string, now: int)
    requires other != cocktailId
    ensures cocktailId in WithFavorite(rows, cocktailId, now)
    ensures cocktailId !in WithoutFavorite(rows, cocktailId)
    ensures (other in WithFavorite(rows, cocktailId, now)) == (other in rows)
    ensures (other in WithoutFavorite(rows, cocktailId)) == (other in rows)
  {
  }

  /** Adding an id that is already a favorite changes no membership: only its time is refreshed. */
  lemma AddIsIdempotentOnMembership(rows: map<string, FavoriteEntity>, cocktailId: string, now: int, later: int)
    requires cocktailId in rows
    ensures WithFavorite(rows, cocktailId, now).Keys == rows.Keys
    ensures WithFavorite(WithFavorite(rows, cocktailId, now), cocktailId, later) == WithFavorite(rows, cocktailId, later)
  {
  }

  /** Removing what was just added restores the table when the id was not a favorite before. */
  lemma AddThenRemoveRestores(rows: map<string, FavoriteEntity>, cocktailId: string, now: int)
    requires cocktailId !in rows
    ensures WithoutFavorite(WithFavorite(rows, cocktailId, now), cocktailId) == rows
  {
  }
}
