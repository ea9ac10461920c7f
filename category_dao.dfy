/** Table `categories` and its queries (com.lcz.bartender.data.local.dao.CategoryDao). */
module CategoryDao {
  import opened Wrappers
  import opened Text
  import opened Tables
  import opened Entities

  function CategoryId(c: CategoryEntity): string
  {
    c.id
  }

  function CategoryName(r: CategoryEntity): string
  {
    r.name
  }

  /** `ORDER BY name ASC`. */
  predicate ByName(a: CategoryEntity, b: CategoryEntity)
  {
    NameLe(CategoryName(a), CategoryName(b))
  }

  predicate AnyCategory(c: CategoryEntity)
  {
    true
  }

  class CategoryDao {
    var rows: map<string, CategoryEntity>

    ghost predicate Valid()
      reads this
    {
      Keyed(rows, CategoryId)
    }

    constructor ()
      ensures Valid() && rows == map[]
    {
      rows := map[];
    }

    /** `insertAllCategories`: insert or replace every record of the batch, in batch order;
        categories whose ids are not in the batch keep their rows. */
    method InsertAllCategories(categories: seq<CategoryEntity>)
      requires Valid()
      modifies this
      ensures Valid()
      ensures rows == Upsert(old(rows), categories, CategoryId)
      ensures rows.Keys == old(rows).Keys + KeysOf(categories, CategoryId)
      ensures forall k :: k in old(rows) && k !in KeysOf(categories, CategoryId) ==> rows[k] == old(rows)[k]
    {
      rows := Upsert(rows, categories, CategoryId);
    }

    /** `getAllCategories`: every row, sorted by name. */
    method GetAllCategories() returns (r: seq<CategoryEntity>)
      requires Valid()
      ensures Lists(rows, AnyCategory, CategoryId, ByName, r)
      ensures |r| == |rows|
    {
      NameOrderIsTotalPreorder(ByName, CategoryName);
      r := Select(rows, AnyCategory, CategoryId, ByName);
      ListingAllHasTableSize(rows, AnyCategory, CategoryId, ByName, r);
    }

    /** `getCategoryById`: the row with that key, or null. */
    function GetCategoryById(categoryId: string): (r: Option<CategoryEntity>)
      reads this
      ensures r.Some? <==> categoryId in rows
      ensures r.Some? ==> r.value == rows[categoryId]
      ensures Valid() && r.Some? ==> r.value.id == categoryId
    {
      if categoryId in rows then Some(rows[categoryId]) else None
    }
  }
}
