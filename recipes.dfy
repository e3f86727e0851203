/** The detector's static recipe table (`foodData`) and its case-insensitive lookup. */
module FoodData {
  import opened Wrappers
  import opened Text

  /** One entry of `ingredients_per_serving`: the key and its quantity and unit. */
  datatype IngredientLine = IngredientLine(name: string, quantity: nat, unit: string)

  datatype Recipe = Recipe(
    name: string,
    ingredients: seq<IngredientLine>,   // in key order
    servings: nat,
    averagePrice: real,
    recommendedAddons: seq<string>)

  const CAESAR_SALAD := Recipe("Caesar Salad",
    [IngredientLine("Spinach", 30, "grams"), IngredientLine("Onions", 1, "piece"), IngredientLine("Garlic", 1, "piece")],
    1, 5.99, ["Cheese", "Spinach", "Ketchup"])

  const BREAKFAST_SANDWICH := Recipe("Breakfast Sandwich",
    [IngredientLine("Sausage", 1, "piece"), IngredientLine("Bread", 1, "loaf"), IngredientLine("Eggs", 1, "eggs")],
    1, 5.99, ["Cheese", "Spinach", "Ketchup"])

  const SPAGHETTI_AND_MEATBALLS := Recipe("Spaghetti and Meatballs",
    [IngredientLine("Sausage", 1, "pieces"), IngredientLine("Spaghetti", 250, "grams"), IngredientLine("Tomato", 1, "tomatoes")],
    1, 5.99, ["Cheese", "Spinach", "Ketchup"])

  /** The table in its declaration order, which is the order `Object.entries` visits it. */
  const TABLE: seq<Recipe> := [CAESAR_SALAD, BREAKFAST_SANDWICH, SPAGHETTI_AND_MEATBALLS]

  predicate NameMatches(r: Recipe, food: string) {
    Lower(r.name) == Lower(food)
  }

  /** Position of the first recipe whose lower-cased name equals the lower-cased food;
      `|table|` when there is none. */
  function FirstMatch(table: seq<Recipe>, food: string): (k: nat)
    ensures k <= |table|
    ensures forall j :: 0 <= j < k ==> !NameMatches(table[j], food)
    ensures k < |table| ==> NameMatches(table[k], food)
  {
    if table == [] then 0
    else if NameMatches(table[0], food) then 0
    else 1 + FirstMatch(table[1..], food)
  }

  /** `Object.entries(foodData).find(([key]) => key.toLowerCase() === food.toLowerCase())?.[1]`. */
  function Lookup(food: string): (r: Option<Recipe>)
    ensures r.Some? <==> exists i :: 0 <= i < |TABLE| && NameMatches(TABLE[i], food)
    ensures r.Some? ==> r.value in TABLE && NameMatches(r.value, food)
  {
    var k := FirstMatch(TABLE, food);
    if k < |TABLE| then Some(TABLE[k]) else None
  }

  /** Labels that differ only in the case of their letters find the same recipe, or both miss. */
  lemma LookupIgnoresCase(a: string, b: string)
    requires Lower(a) == Lower(b)
    ensures Lookup(a) == Lookup(b)
  {
  }

  /** "caesar salad" and "Caesar Salad" both find the Caesar Salad recipe. */
  lemma LookupCaesarSalad()
    ensures Lookup("caesar salad") == Lookup("Caesar Salad") == Some(CAESAR_SALAD)
  {
    assert Lower("Caesar Salad") == "caesar salad";
    assert Lower("caesar salad") == "caesar salad";
    assert FirstMatch(TABLE, "caesar salad") == 0;
    assert FirstMatch(TABLE, "Caesar Salad") == 0;
  }

  /** The exact class name of the third dish finds its recipe. */
  lemma LookupSpaghettiAndMeatballs()
    ensures Lookup("Spaghetti and Meatballs") == Some(SPAGHETTI_AND_MEATBALLS)
  {
    var food := "Spaghetti and Meatballs";
    assert !NameMatches(TABLE[0], food) && !NameMatches(TABLE[1], food);
    assert NameMatches(TABLE[2], food);
    assert FirstMatch(TABLE[2..], food) == 0;
    assert FirstMatch(TABLE[1..], food) == 1;
  }

  /** A food missing from the table is a miss. */
  lemma LookupPizzaMisses()
    ensures Lookup("Pizza") == None
  {
    assert forall i :: 0 <= i < |TABLE| ==> |Lower(TABLE[i].name)| != |Lower("Pizza")|;
  }
}
