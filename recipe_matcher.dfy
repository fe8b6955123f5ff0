/** The recipe suggestion for the items that are about to expire: the
    first food item, in list order, whose name contains an ingredient of
    some recipe, paired with the first such recipe in recipe order. */
module RecipeMatcher {
  import opened Wrappers
  import opened Types
  import opened Text

  datatype Recipe = Recipe(id: string, name: string, ingredients: seq<string>, tag: string)

  /** The suggestion; `recipe` is absent for the fallback message. */
  datatype Suggestion = Suggestion(message: string, recipe: Option<Recipe>)

  const FallbackMessage := "How about a quick healthy meal with your items?"

  /** Items the suggestion looks at: food that is expiring soon. */
  predicate Qualifies(item: InventoryItem) {
    item.itemType == Food && item.status == ExpiringSoon
  }

  /** `ingredient` occurs in `name`, both lower-cased. */
  predicate MentionsIngredient(name: string, ingredient: string) {
    Contains(Lower(name), Lower(ingredient))
  }

  /** Whether some ingredient, lower-cased, occurs in the lower-cased item name. */
  function SomeIngredient(name: string, ingredients: seq<string>): bool {
    if |ingredients| == 0 then false
    else MentionsIngredient(name, ingredients[0]) || SomeIngredient(name, ingredients[1..])
  }

  lemma {:induction false} SomeIngredientMeans(name: string, ingredients: seq<string>)
    ensures SomeIngredient(name, ingredients) <==>
      exists k :: 0 <= k < |ingredients| && MentionsIngredient(name, ingredients[k])
  {
    if |ingredients| > 0 {
      SomeIngredientMeans(name, ingredients[1..]);
      assert forall k :: 0 <= k < |ingredients| - 1 ==> ingredients[1..][k] == ingredients[k + 1];
    }
  }

  predicate Matches(item: InventoryItem, recipe: Recipe) {
    SomeIngredient(item.name, recipe.ingredients)
  }

  /** The index of the first recipe that matches the item, if any. */
  function FindRecipe(item: InventoryItem, recipes: seq<Recipe>): (r: Option<nat>)
    ensures r.Some? ==> r.value < |recipes|
  {
    if |recipes| == 0 then None
    else if Matches(item, recipes[0]) then Some(0)
    else match FindRecipe(item, recipes[1..])
      case None => None
      case Some(k) => Some(k + 1)
  }

  /** The recipe found is the first that matches; none is found exactly
      when none matches. */
  lemma {:induction false} FindRecipeIsFirst(item: InventoryItem, recipes: seq<Recipe>)
    ensures FindRecipe(item, recipes).Some? ==> Matches(item, recipes[FindRecipe(item, recipes).value])
    ensures FindRecipe(item, recipes).Some? ==>
      forall j :: 0 <= j < FindRecipe(item, recipes).value ==> !Matches(item, recipes[j])
    ensures FindRecipe(item, recipes).None? <==> forall j :: 0 <= j < |recipes| ==> !Matches(item, recipes[j])
  {
    if |recipes| > 0 && !Matches(item, recipes[0]) {
      FindRecipeIsFirst(item, recipes[1..]);
      assert forall j :: 0 <= j < |recipes| - 1 ==> recipes[1..][j] == recipes[j + 1];
    }
  }

  /** The Food items that are Expiring Soon, in order. */
  function FoodItems(items: seq<InventoryItem>): (foods: seq<InventoryItem>)
    ensures |foods| <= |items|
    ensures |foods| == 0 <==> forall i :: 0 <= i < |items| ==> !Qualifies(items[i])
    ensures forall x :: x in foods ==> x in items && Qualifies(x)
    ensures forall i :: 0 <= i < |items| && Qualifies(items[i]) ==> items[i] in foods
  {
    if |items| == 0 then []
    else if Qualifies(items[0]) then [items[0]] + FoodItems(items[1..])
    else FoodItems(items[1..])
  }

  /** The `for-of` loop with its early return: the first item with a
      matching recipe, and that recipe's index. */
  function FirstMatch(foods: seq<InventoryItem>, recipes: seq<Recipe>): (r: Option<(InventoryItem, nat)>)
    ensures r.Some? ==> r.value.0 in foods && FindRecipe(r.value.0, recipes) == Some(r.value.1)
  {
    if |foods| == 0 then None
    else match FindRecipe(foods[0], recipes)
      case Some(k) => Some((foods[0], k))
      case None => FirstMatch(foods[1..], recipes)
  }

  function MatchMessage(recipe: Recipe, item: InventoryItem): string {
    "Try making " + recipe.name + " with your " + item.name + "!"
  }

  /** `getRecipeSuggestion`, with the recipe list as a parameter. */
  function GetRecipeSuggestion(items: seq<InventoryItem>, recipes: seq<Recipe>): (r: Option<Suggestion>)
    ensures r.None? <==> forall i :: 0 <= i < |items| ==> !Qualifies(items[i])
  {
    var foods := FoodItems(items);
    if |foods| == 0 then None
    else match FirstMatch(foods, recipes)
      case Some((item, k)) => Some(Suggestion(MatchMessage(recipes[k], item), Some(recipes[k])))
      case None => Some(Suggestion(FallbackMessage, None))
  }

  /** Item `j` qualifies and some recipe matches it. */
  predicate Hit(items: seq<InventoryItem>, recipes: seq<Recipe>, j: nat)
    requires j < |items|
  {
    Qualifies(items[j]) && FindRecipe(items[j], recipes).Some?
  }

  /** A reference scan over the unfiltered list from index `from` on: the
      index of the first qualifying item with a matching recipe, and that
      recipe's index. */
  function FirstMatchFrom(items: seq<InventoryItem>, recipes: seq<Recipe>, from: nat): (r: Option<(nat, nat)>)
    requires from <= |items|
    ensures r.Some? ==> from <= r.value.0 < |items| && Qualifies(items[r.value.0])
                        && FindRecipe(items[r.value.0], recipes) == Some(r.value.1)
    decreases |items| - from
  {
    if from == |items| then None
    else if Hit(items, recipes, from) then Some((from, FindRecipe(items[from], recipes).value))
    else FirstMatchFrom(items, recipes, from + 1)
  }

  /** The reference scan finds the first hit, and finds none exactly when
      there is none. */
  lemma {:induction false} FirstMatchFromIsFirst(items: seq<InventoryItem>, recipes: seq<Recipe>, from: nat)
    requires from <= |items|
    ensures FirstMatchFrom(items, recipes, from).Some? ==>
      forall j :: from <= j < FirstMatchFrom(items, recipes, from).value.0 ==> !Hit(items, recipes, j)
    ensures FirstMatchFrom(items, recipes, from).None? <==> forall j :: from <= j < |items| ==> !Hit(items, recipes, j)
    decreases |items| - from
  {
    if from < |items| && !Hit(items, recipes, from) {
      FirstMatchFromIsFirst(items, recipes, from + 1);
    }
  }

  /** The item a reference-scan result points at, with its recipe index. */
  function AtIndex(items: seq<InventoryItem>, r: Option<(nat, nat)>): Option<(InventoryItem, nat)>
    requires r.Some? ==> r.value.0 < |items|
  {
    if r.None? then None else Some((items[r.value.0], r.value.1))
  }

  /** Filtering first and then scanning, as the source does, finds what
      the reference scan finds. */
  lemma {:induction false} FirstMatchOverFoods(items: seq<InventoryItem>, recipes: seq<Recipe>, from: nat)
    requires from <= |items|
    ensures FirstMatch(FoodItems(items[from..]), recipes) == AtIndex(items, FirstMatchFrom(items, recipes, from))
    decreases |items| - from
  {
    if from < |items| {
      var later := FoodItems(items[from + 1..]);
      assert items[from..][1..] == items[from + 1..];
      assert items[from..][0] == items[from];
      FirstMatchOverFoods(items, recipes, from + 1);
      if Qualifies(items[from]) {
        assert FoodItems(items[from..]) == [items[from]] + later;
        assert ([items[from]] + later)[1..] == later;
      } else {
        assert FoodItems(items[from..]) == later;
      }
    }
  }

  /** The suggestion in full: the recipe it names matches a qualifying
      item, is the first recipe that does, the item is the first
      qualifying item with any match, and the message names both; the
      fallback comes exactly when no qualifying item matches any recipe. */
  lemma SuggestionMeans(items: seq<InventoryItem>, recipes: seq<Recipe>)
    requires GetRecipeSuggestion(items, recipes).Some?
    ensures var s := GetRecipeSuggestion(items, recipes).value;
      match s.recipe
      case Some(recipe) =>
        exists i, k :: 0 <= i < |items| && 0 <= k < |recipes| && recipes[k] == recipe
          && Qualifies(items[i]) && Matches(items[i], recipe)
          && (forall j :: 0 <= j < k ==> !Matches(items[i], recipes[j]))
          && (forall j, m :: 0 <= j < i && 0 <= m < |recipes| && Qualifies(items[j]) ==> !Matches(items[j], recipes[m]))
          && s.message == MatchMessage(recipe, items[i])
      case None =>
        s.message == FallbackMessage
        && forall i, m :: 0 <= i < |items| && 0 <= m < |recipes| && Qualifies(items[i]) ==> !Matches(items[i], recipes[m])
  {
    if GetRecipeSuggestion(items, recipes).value.recipe.Some? {
      SuggestionNamesFirstMatch(items, recipes);
    } else {
      SuggestionFallback(items, recipes);
    }
  }

  /** A suggestion that names a recipe names the first match. */
  lemma SuggestionNamesFirstMatch(items: seq<InventoryItem>, recipes: seq<Recipe>)
    requires GetRecipeSuggestion(items, recipes).Some?
    requires GetRecipeSuggestion(items, recipes).value.recipe.Some?
    ensures var s := GetRecipeSuggestion(items, recipes).value;
      exists i, k :: 0 <= i < |items| && 0 <= k < |recipes| && recipes[k] == s.recipe.value
        && Qualifies(items[i]) && Matches(items[i], recipes[k])
        && (forall j :: 0 <= j < k ==> !Matches(items[i], recipes[j]))
        && (forall j, m :: 0 <= j < i && 0 <= m < |recipes| && Qualifies(items[j]) ==> !Matches(items[j], recipes[m]))
        && s.message == MatchMessage(recipes[k], items[i])
  {
    FirstMatchOverFoods(items, recipes, 0);
    assert items[0..] == items;
    FirstMatchFromIsFirst(items, recipes, 0);
    var r := FirstMatchFrom(items, recipes, 0);
    assert r.Some?;
    var i, k := r.value.0, r.value.1;
    assert GetRecipeSuggestion(items, recipes).value == Suggestion(MatchMessage(recipes[k], items[i]), Some(recipes[k]));
    FindRecipeIsFirst(items[i], recipes);
    forall j, m | 0 <= j < i && 0 <= m < |recipes| && Qualifies(items[j])
      ensures !Matches(items[j], recipes[m])
    {
      assert !Hit(items, recipes, j);
      FindRecipeIsFirst(items[j], recipes);
    }
  }

  /** The fallback comes exactly when no qualifying item matches any
      recipe. */
  lemma SuggestionFallback(items: seq<InventoryItem>, recipes: seq<Recipe>)
    requires GetRecipeSuggestion(items, recipes).Some?
    requires GetRecipeSuggestion(items, recipes).value.recipe.None?
    ensures GetRecipeSuggestion(items, recipes).value.message == FallbackMessage
    ensures forall i, m :: 0 <= i < |items| && 0 <= m < |recipes| && Qualifies(items[i]) ==> !Matches(items[i], recipes[m])
  {
    FirstMatchOverFoods(items, recipes, 0);
    assert items[0..] == items;
    FirstMatchFromIsFirst(items, recipes, 0);
    assert FirstMatchFrom(items, recipes, 0).None?;
    forall i, m | 0 <= i < |items| && 0 <= m < |recipes| && Qualifies(items[i])
      ensures !Matches(items[i], recipes[m])
    {
      assert !Hit(items, recipes, i);
      FindRecipeIsFirst(items[i], recipes);
    }
  }
}
