/** Table `cocktails` and its queries (com.lcz.bartender.data.local.dao.CocktailDao), as a map
    from primary key to row. */
module CocktailDao {
  import opened Wrappers
  import opened Text
  import opened Tables
  import opened Entities

  function CocktailId(c: CocktailEntity): string
  {
    c.id
  }

  function CocktailName(r: CocktailEntity): string
  {
    r.name
  }

  /** `ORDER BY name ASC`. */
  predicate ByName(a: CocktailEntity, b: CocktailEntity)
  {
    NameLe(CocktailName(a), CocktailName(b))
  }

  predicate AnyCocktail(c: CocktailEntity)
  {
    true
  }

  /** `WHERE categoryId = :categoryId`. */
  function InCategory(categoryId: string): CocktailEntity -> bool
  {
    (c: CocktailEntity) => c.categoryId == categoryId
  }

  /** `WHERE name LIKE '%' || :query || '%'`, with the case-insensitive comparison abstracted
      as `fold`. */
  function NameContains(query: string, fold: char -> char): CocktailEntity -> bool
  {
    (c: CocktailEntity) => ContainsFolded(c.name, query, fold)
  }

  class CocktailDao {
    var rows: map<string, CocktailEntity>

    ghost predicate Valid()
      reads this
    {
      Keyed(rows, CocktailId)
    }

    constructor ()
      ensures Valid() && rows == map[]
    {
      rows := map[];
    }

    /** `insertAllCocktails`: insert or replace every record of the batch, in batch order. */
    method InsertAllCocktails(cocktails: seq<CocktailEntity>)
      requires Valid()
      modifies this
      ensures Valid()
      ensures rows == Upsert(old(rows), cocktails, CocktailId)
      ensures rows.Keys == old(rows).Keys + KeysOf(cocktails, CocktailId)
      ensures forall k :: k in old(rows) && k !in KeysOf(cocktails, CocktailId) ==> rows[k] == old(rows)[k]
    {
      rows := Upsert(rows, cocktails, CocktailId);
    }

    /** `getAllCocktails`: every row, sorted by name. */
    method GetAllCocktails() returns (r: seq<CocktailEntity>)
      requires Valid()
      ensures Lists(rows, AnyCocktail, CocktailId, ByName, r)
      ensures |r| == |rows|
    {
      NameOrderIsTotalPreorder(ByName, CocktailName);
      r := Select(rows, AnyCocktail, CocktailId, ByName);
      ListingAllHasTableSize(rows, AnyCocktail, CocktailId, ByName, r);
    }

    /** `getCocktailsByCategoryId`: the rows of one category, sorted by name. */
    method GetCocktailsByCategoryId(categoryId: string) returns (r: seq<CocktailEntity>)
      requires Valid()
      ensures Lists(rows, InCategory(categoryId), CocktailId, ByName, r)
    {
      NameOrderIsTotalPreorder(ByName, CocktailName);
      r := Select(rows, InCategory(categoryId), CocktailId, ByName);
    }

    /** `getCocktailById`: the row with that key, or null. */
    function GetCocktailById(cocktailId: string): (r: Option<CocktailEntity>)
      reads this
      ensures r.Some? <==> cocktailId in rows
      ensures r.Some? ==> r.value == rows[cocktailId]
      ensures Valid() && r.Some? ==> r.value.id == cocktailId
    {
      if cocktailId in rows then Some(rows[cocktailId]) else None
    }

    /** `searchCocktailsByName`: the rows whose name contains the query, sorted by name. */
    method SearchCocktailsByName(query: string, fold: char -> char) returns (r: seq<CocktailEntity>)
      requires Valid()
      ensures Lists(rows, NameContains(query, fold), CocktailId, ByName, r)
    {
      NameOrderIsTotalPreorder(ByName, CocktailName);
      r := Select(rows, NameContains(query, fold), CocktailId, ByName);
    }
  }

  /** The by-category and by-name listings are sub-lists of the full listing. */
  lemma QueriesWithinAll(rows: map<string, CocktailEntity>, categoryId: string, query: string,
                         fold: char -> char, inCategory: seq<CocktailEntity>, byName: seq<CocktailEntity>,
                         all: seq<CocktailEntity>)
    requires Lists(rows, InCategory(categoryId), CocktailId, ByName, inCategory)
    requires Lists(rows, NameContains(query, fold), CocktailId, ByName, byName)
    requires Lists(rows, AnyCocktail, CocktailId, ByName, all)
    ensures forall i :: 0 <= i < |inCategory| ==> inCategory[i] in all
    ensures forall i :: 0 <= i < |byName| ==> byName[i] in all
  {
    ListedWithinAll(rows, InCategory(categoryId), AnyCocktail, CocktailId, ByName, inCategory, all);
    ListedWithinAll(rows, NameContains(query, fold), AnyCocktail, CocktailId, ByName, byName, all);
  }

  /** Inserting N cocktails with distinct ids into an empty table and listing all of them gives
      back exactly those N cocktails, sorted by name. */
  lemma InsertThenListAll(batch: seq<CocktailEntity>, all: seq<CocktailEntity>)
    requires DistinctKeys(batch, CocktailId)
    requires Lists(Upsert(map[], batch, CocktailId), AnyCocktail, CocktailId, ByName, all)
    ensures |all| == |batch|
    ensures forall i :: 0 <= i < |batch| ==> batch[i] in all
    ensures forall i :: 0 <= i < |all| ==> all[i] in batch
    ensures Sorted(all, ByName)
  {
    ListingAfterDistinctInsert(batch, AnyCocktail, CocktailId, ByName, all);
  }
}
