/** Records of the legacy in-memory catalog (package com.example.bartender). */
module LegacyModel {
  import opened Wrappers

  datatype Difficulty = EASY | MEDIUM | HARD

  /** An ingredient line as the legacy screens show it: a name and an amount with its unit. */
  datatype Ingredient = Ingredient(name: string, amount: string)

  /** A cocktail as the legacy screens show it. `id` is an `Int` derived from the catalog's string
      id; `isFavorite` is filled in by the repository on every read. */
  datatype Cocktail = Cocktail(
    id: int,
    name: string,
    description: string,
    imageUrl: string,
    difficulty: Difficulty,
    ingredients: seq<Ingredient>,
    instructions: seq<string>,
    isFavorite: bool)

  /** One ingredient of a catalog record: the ingredient's id, an amount and a unit. */
  datatype IngredientAmount = IngredientAmount(ingredientId: string, amount: string, unit: string)

  /** A record of the static catalog, keyed by a string id. */
  datatype CatalogRecord = CatalogRecord(
    id: string,
    name: string,
    categoryId: string,
    imageUrl: string,
    preparationSteps: seq<string>,
    ingredients: seq<IngredientAmount>,
    flavorDescription: Option<seq<string>>,
    difficulty: Option<string>,
    alcoholStrength: Option<string>,
    recommendedGlass: Option<string>,
    history: Option<string>)
}
