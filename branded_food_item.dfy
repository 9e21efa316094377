/** src/BrandedFoodItem.py: a FoodItem with a brand, an ingredient list and a UPC, each
    stored with surrounding whitespace trimmed. */
module BrandedFoodItems {
  import opened PyCore
  import opened FoodItems

  /** [i.strip() for i in xs]: same length, same order, each element trimmed. */
  function StripAll(xs: seq<string>): (r: seq<string>)
    ensures |r| == |xs| && forall i :: 0 <= i < |xs| ==> r[i] == Strip(xs[i])
  {
    seq(|xs|, i requires 0 <= i < |xs| => Strip(xs[i]))
  }

  predicate AllTrimmed(xs: seq<string>)
  {
    forall i :: 0 <= i < |xs| ==> IsTrimmed(xs[i])
  }

  /** Every element of a trimmed list is trimmed, and trimming it again changes nothing. */
  lemma StripAllTrims(xs: seq<string>)
    ensures AllTrimmed(StripAll(xs))
    ensures StripAll(StripAll(xs)) == StripAll(xs)
  {
    forall i | 0 <= i < |xs| ensures IsTrimmed(StripAll(xs)[i]) && Strip(Strip(xs[i])) == Strip(xs[i]) {
      StripTrims(xs[i]);
      StripIdempotent(xs[i]);
    }
  }

  /** f"{brand} {name} [{food_class}] (UPC: {upc})" */
  function DescribeText(brand: string, name: string, foodClass: string, upc: string): string
  {
    brand + " " + name + " [" + foodClass + "] (UPC: " + upc + ")"
  }

  /** describe() starts with the brand and a space, and ends with the UPC in its
      "(UPC: ...)" bracket; when the brand is a single word, the text up to the first space
      is the brand. */
  lemma DescribeParts(brand: string, name: string, foodClass: string, upc: string)
    ensures var t, tail := DescribeText(brand, name, foodClass, upc), " (UPC: " + upc + ")";
      && StartsWith(t, brand + " ")
      && |tail| <= |t| && t[|t| - |tail|..] == tail
      && (brand != "" && NoSpace(brand) ==> Word(t) == brand)
  {
    var t := DescribeText(brand, name, foodClass, upc);
    var rest := name + " [" + foodClass + "] (UPC: " + upc + ")";
    assert t == brand + " " + rest;
    assert t == brand + " " + name + " [" + foodClass + "]" + (" (UPC: " + upc + ")");
    if brand != "" && NoSpace(brand) {
      WordOfTokenThenSpace(brand, rest);
    }
  }

  const BrandedClass := "Branded"

  class BrandedFoodItem {
    /** The FoodItem part: name and nutrients, with their own setters. */
    const base: FoodItem
    const foodClass: string
    var brandName: string
    var ingredients: seq<string>
    var upc: string

    ghost predicate Valid()
      reads this, base
    {
      && base.Valid()
      && foodClass == BrandedClass
      && IsTrimmed(brandName) && IsTrimmed(upc) && AllTrimmed(ingredients)
    }

    /** The assignments of __init__ after the FoodItem part is built. */
    constructor (base: FoodItem, brandName: string, ingredients: seq<string>, upc: string)
      requires base.Valid()
      ensures Valid() && this.base == base
      ensures this.brandName == Strip(brandName) && this.upc == Strip(upc)
      ensures this.ingredients == StripAll(ingredients)
    {
      StripTrims(brandName);
      StripTrims(upc);
      StripAllTrims(ingredients);
      this.base := base;
      this.foodClass := BrandedClass;
      this.brandName := Strip(brandName);
      this.ingredients := StripAll(ingredients);
      this.upc := Strip(upc);
    }

    /** BrandedFoodItem(name, nutrients, brand_name, ingredients, upc): the name check is
        FoodItem's; brand, UPC and ingredients are trimmed and never rejected, even when
        trimming leaves them empty. */
    static method New(name: string, nutrients: NutrientDict, brandName: string,
                      ingredients: seq<string>, upc: string) returns (r: Result<BrandedFoodItem>)
      ensures r.Err? <==> name == ""
      ensures r.Err? ==> r.error == ValueError(EmptyNameMessage)
      ensures r.Ok? ==>
                && fresh(r.value) && fresh(r.value.base) && r.value.Valid()
                && r.value.base.name == name && r.value.base.nutrients == nutrients
                && r.value.foodClass == BrandedClass
                && r.value.brandName == Strip(brandName) && r.value.upc == Strip(upc)
                && r.value.ingredients == StripAll(ingredients)
    {
      var food := FoodItem.New(name, nutrients);
      if food.Err? {
        return Err(food.error);
      }
      var item := new BrandedFoodItem(food.value, brandName, ingredients, upc);
      return Ok(item);
    }

    /** The brand_name setter: the trimmed value is stored; if it is empty, ValueError is
        raised and the old brand stays. */
    method SetBrandName(value: string) returns (out: Outcome)
      requires Valid()
      modifies this
      ensures Valid() && upc == old(upc) && ingredients == old(ingredients)
      ensures Strip(value) == "" ==>
                out == Raised(ValueError("Brand name cannot be empty.")) && brandName == old(brandName)
      ensures Strip(value) != "" ==> out == Done && brandName == Strip(value)
    {
      var v := Strip(value);
      if v == "" {
        return Raised(ValueError("Brand name cannot be empty."));
      }
      StripTrims(value);
      brandName := v;
      return Done;
    }

    /** The upc setter, with the same rule as the brand. */
    method SetUpc(value: string) returns (out: Outcome)
      requires Valid()
      modifies this
      ensures Valid() && brandName == old(brandName) && ingredients == old(ingredients)
      ensures Strip(value) == "" ==> out == Raised(ValueError("UPC cannot be empty.")) && upc == old(upc)
      ensures Strip(value) != "" ==> out == Done && upc == Strip(value)
    {
      var v := Strip(value);
      if v == "" {
        return Raised(ValueError("UPC cannot be empty."));
      }
      StripTrims(value);
      upc := v;
      return Done;
    }

    /** The ingredients setter: each element trimmed, same length and order. */
    method SetIngredients(value: seq<string>)
      requires Valid()
      modifies this
      ensures Valid() && brandName == old(brandName) && upc == old(upc)
      ensures ingredients == StripAll(value)
    {
      StripAllTrims(value);
      ingredients := StripAll(value);
    }

    /** The ingredients getter: a new list with the stored ingredients, so writes to it
        do not reach the item. */
    method GetIngredients() returns (copy: array<string>)
      ensures fresh(copy) && copy[..] == ingredients
    {
      var xs := ingredients;
      copy := new string[|xs|](i requires 0 <= i < |xs| => xs[i]);
    }

    function Describe(): string
      reads this, base
    {
      DescribeText(brandName, base.name, foodClass, upc)
    }
  }
}
