/** Records of the Room-based generation (package com.lcz.bartender): the three tables' rows and
    the derived pairing of a cocktail with its favorite status. */
module Entities {
  import opened Wrappers

  datatype IngredientAmount = IngredientAmount(ingredientId: string, amount: string, unit: string)

  /** A row of table `cocktails`, primary key `id`. */
  datatype CocktailEntity = CocktailEntity(
    id: string,
    name: string,
    categoryId: string,
    imageUrl: string,
    preparationSteps: seq<string>,
    ingredients: seq<IngredientAmount>,
    flavorDescription: Option<seq<string>>,
    difficulty: Option<string>,
    alcoholStrength: Option<string>,
    recommendedGlass: Option<string>,
    history: Option<string>)

  /** A row of table `favorites`, primary key `cocktailId`; the collection time is a `Date`,
      here its epoch milliseconds. */
  datatype FavoriteEntity = FavoriteEntity(cocktailId: string, userId: Option<string>, collectionTime: int)

  /** A row of table `categories`, primary key `id`. */
  datatype CategoryEntity = CategoryEntity(id: string, name: string, imageUrl: string, description: Option<string>)

  /** Not stored: a cocktail paired with whether its id is a favorite. */
  datatype CocktailWithFavoriteStatus = CocktailWithFavoriteStatus(cocktail: CocktailEntity, isFavorite: bool)
}
