/** Table `favorites` and its queries (com.lcz.bartender.data.local.dao.FavoriteDao): at most one
    row per cocktail id; the presence of a row is what makes a cocktail a favorite. */
module FavoriteDao {
  import opened Wrappers
  import opened Tables
  import opened Entities

  function FavoriteKey(f: FavoriteEntity): string
  {
    f.cocktailId
  }

  /** `ORDER BY collectionTime DESC`. */
  predicate NewerFirst(a: FavoriteEntity, b: FavoriteEntity)
  {
    a.collectionTime >= b.collectionTime
  }

  predicate AnyFavorite(f: FavoriteEntity)
  {
    true
  }

  lemma NewerFirstIsTotalPreorder()
    ensures TotalPreorder(NewerFirst)
  {
  }

  class FavoriteDao {
    var rows: map<string, FavoriteEntity>

    ghost predicate Valid()
      reads this
    {
      Keyed(rows, FavoriteKey)
    }

    constructor ()
      ensures Valid() && rows == map[]
    {
      rows := map[];
    }

    /** `insertFavorite`: insert, or replace the row of the same cocktail. */
    method InsertFavorite(favorite: FavoriteEntity)
      requires Valid()
      modifies this
      ensures Valid()
      ensures rows == old(rows)[favorite.cocktailId := favorite]
    {
      rows := rows[favorite.cocktailId := favorite];
    }

    /** `deleteFavorite`: deletes the row with the record's primary key (its other fields are not
        compared). */
    method DeleteFavorite(favorite: FavoriteEntity)
      requires Valid()
      modifies this
      ensures Valid()
      ensures rows == old(rows) - {favorite.cocktailId}
    {
      rows := rows - {favorite.cocktailId};
    }

    /** `deleteFavoriteById`: deletes the row of that cocktail if there is one. */
    method DeleteFavoriteById(cocktailId: string)
      requires Valid()
      modifies this
      ensures Valid()
      ensures rows == old(rows) - {cocktailId}
    {
      rows := rows - {cocktailId};
    }

    /** `getAllFavorites`: every row, most recently collected first. */
    method GetAllFavorites() returns (r: seq<FavoriteEntity>)
      requires Valid()
      ensures Lists(rows, AnyFavorite, FavoriteKey, NewerFirst, r)
      ensures |r| == |rows|
    {
      NewerFirstIsTotalPreorder();
      r := Select(rows, AnyFavorite, FavoriteKey, NewerFirst);
      ListingAllHasTableSize(rows, AnyFavorite, FavoriteKey, NewerFirst, r);
    }

    /** `getFavoriteById`: the row of that cocktail, or null. */
    function GetFavoriteById(cocktailId: string): (r: Option<FavoriteEntity>)
      reads this
      ensures r.Some? <==> cocktailId in rows
      ensures r.Some? ==> r.value == rows[cocktailId]
      ensures Valid() && r.Some? ==> r.value.cocktailId == cocktailId
    {
      if cocktailId in rows then Some(rows[cocktailId]) else None
    }

    /** `getAllFavoriteCocktailIds`: every favorite cocktail id once, in no promised order. */
    method GetAllFavoriteCocktailIds() returns (ids: seq<string>)
      ensures forall i :: 0 <= i < |ids| ==> ids[i] in rows
      ensures forall k :: k in rows ==> k in ids
      ensures forall i, j :: 0 <= i < j < |ids| ==> ids[i] != ids[j]
    {
      ids := [];
      var rest := rows.Keys;
      while rest != {}
        invariant rest <= rows.Keys
        invariant forall i :: 0 <= i < |ids| ==> ids[i] in rows && ids[i] !in rest
        invariant forall k :: k in rows && k !in rest ==> k in ids
        invariant forall i, j :: 0 <= i < j < |ids| ==> ids[i] != ids[j]
        decreases rest
      {
        var k :| k in rest;
        rest := rest - {k};
        ids := ids + [k];
      }
    }
  }
}
