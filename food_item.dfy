/** src/food_item.py: a named food and its nutrient dictionary. */
module FoodItems {
  import opened PyCore
  import opened FloatDicts

  /** A nutrient dictionary: dict[str, float] in insertion order. */
  type NutrientDict = FloatDict

  // ---------------------------------------------------------------------------------
  // total_calories and nutrient_summary
  // ---------------------------------------------------------------------------------

  /** round(fat*9 + protein*4 + carbs*4, 2), an absent macro counting as 0. */
  function Calories(d: NutrientDict): real
  {
    Round(Get(d, "fat", 0.0) * 9.0 + Get(d, "protein", 0.0) * 4.0 + Get(d, "carbs", 0.0) * 4.0, 2)
  }

  /** Only the fat, protein and carbs entries matter; the calories are within 0.005 of
      the exact 9/4/4 sum and never decrease when a macro grows. */
  lemma CaloriesFromMacros(d: NutrientDict, e: NutrientDict)
    ensures var exact := Get(d, "fat", 0.0) * 9.0 + Get(d, "protein", 0.0) * 4.0 + Get(d, "carbs", 0.0) * 4.0;
      exact - 0.005 <= Calories(d) <= exact + 0.005
    ensures (Get(d, "fat", 0.0) == Get(e, "fat", 0.0) && Get(d, "protein", 0.0) == Get(e, "protein", 0.0)
             && Get(d, "carbs", 0.0) == Get(e, "carbs", 0.0)) ==> Calories(d) == Calories(e)
    ensures (Get(d, "fat", 0.0) <= Get(e, "fat", 0.0) && Get(d, "protein", 0.0) <= Get(e, "protein", 0.0)
             && Get(d, "carbs", 0.0) <= Get(e, "carbs", 0.0)) ==> Calories(d) <= Calories(e)
  {
    var exact := Get(d, "fat", 0.0) * 9.0 + Get(d, "protein", 0.0) * 4.0 + Get(d, "carbs", 0.0) * 4.0;
    var exact' := Get(e, "fat", 0.0) * 9.0 + Get(e, "protein", 0.0) * 4.0 + Get(e, "carbs", 0.0) * 4.0;
    RoundIsNear(exact, 2);
    if exact <= exact' {
      RoundMonotone(exact, exact', 2);
    }
  }

  /** fat 10, protein 5 and carbs 20 give 190.0. */
  lemma CaloriesExample()
    ensures Calories([("fat", 10.0), ("protein", 5.0), ("carbs", 20.0)]) == 190.0
  {
    var d: NutrientDict := [("fat", 10.0), ("protein", 5.0), ("carbs", 20.0)];
    IndexOfIsThePosition(d, "fat", 0);
    IndexOfIsThePosition(d, "protein", 1);
    IndexOfIsThePosition(d, "carbs", 2);
    assert Get(d, "fat", 0.0) * 9.0 + Get(d, "protein", 0.0) * 4.0 + Get(d, "carbs", 0.0) * 4.0 == 19000.0 / Pow10(2);
    RoundOfDecimal(19000, 2);
  }

  /** One gram of each macro gives 17. */
  lemma CaloriesOfOneGramEach()
    ensures Calories([("fat", 1.0), ("protein", 1.0), ("carbs", 1.0)]) == 17.0
  {
    var d: NutrientDict := [("fat", 1.0), ("protein", 1.0), ("carbs", 1.0)];
    IndexOfIsThePosition(d, "fat", 0);
    IndexOfIsThePosition(d, "protein", 1);
    IndexOfIsThePosition(d, "carbs", 2);
    assert Get(d, "fat", 0.0) * 9.0 + Get(d, "protein", 0.0) * 4.0 + Get(d, "carbs", 0.0) * 4.0 == 1700.0 / Pow10(2);
    RoundOfDecimal(1700, 2);
  }

  /** A "carbohydrates" entry does not count: the formula reads only the key "carbs". */
  lemma CarbohydratesKeyIgnored(x: real)
    ensures Calories([("carbohydrates", x)]) == 0.0
  {
    var d: NutrientDict := [("carbohydrates", x)];
    assert Keys(d) == ["carbohydrates"];
    RoundOfDecimal(0, 2);
  }

  /** One entry as f"{k}: {v}g"; `num` renders the float as Python's str() does. */
  function SummaryEntry(k: string, v: real, num: real -> string): string
  {
    k + ": " + num(v) + "g"
  }

  function SummaryEntries(d: seq<(string, real)>, num: real -> string): (r: seq<string>)
    ensures |r| == |d|
    ensures forall i :: 0 <= i < |d| ==> r[i] == SummaryEntry(d[i].0, d[i].1, num)
  {
    seq(|d|, i requires 0 <= i < |d| => SummaryEntry(d[i].0, d[i].1, num))
  }

  /** ", ".join(f"{k}: {v}g" for k, v in d.items()) */
  function Summary(d: NutrientDict, num: real -> string): string
  {
    Join(", ", SummaryEntries(d, num))
  }

  /** The summary is empty exactly for an empty dictionary; otherwise it starts with the
      first entry and ends with the last, in dictionary order. */
  lemma SummaryShape(d: NutrientDict, num: real -> string)
    ensures Summary(d, num) == "" <==> d == []
    ensures d != [] ==> StartsWith(Summary(d, num), SummaryEntry(d[0].0, d[0].1, num))
    ensures d != [] ==> var s, e := Summary(d, num), SummaryEntry(d[|d| - 1].0, d[|d| - 1].1, num);
      |e| <= |s| && s[|s| - |e|..] == e
  {
    var es := SummaryEntries(d, num);
    if d != [] {
      JoinStartsWithFirst(", ", es);
      JoinEndsWithLast(", ", es);
      assert |Summary(d, num)| >= |es[0]| > 0;
    }
  }

  /** Adding an entry at the end adds ", " and that entry to the summary. */
  lemma SummaryOfNewKey(d: NutrientDict, k: string, v: real, num: real -> string)
    requires k !in Keys(d) && d != []
    ensures Summary(Assign(d, k, v), num) == Summary(d, num) + ", " + SummaryEntry(k, v, num)
  {
    assert SummaryEntries(d + [(k, v)], num) == SummaryEntries(d, num) + [SummaryEntry(k, v, num)];
    JoinSnoc(", ", SummaryEntries(d, num), SummaryEntry(k, v, num));
  }

  // ---------------------------------------------------------------------------------
  // The FoodItem class
  // ---------------------------------------------------------------------------------

  const EmptyNameMessage := "Food name must be a non-empty string."

  /** What the constructor raises when the nutrients are not a dict.  Only callers that
      pass decoded values (create_food_item) can reach it. */
  const NotADictMessage := "Nutrients must be a dictionary with numeric values."

  class FoodItem {
    var name: string
    var nutrients: NutrientDict

    ghost predicate Valid()
      reads this
    {
      name != ""
    }

    /** The assignments of __init__, once its checks have passed. */
    constructor (name: string, nutrients: NutrientDict)
      requires name != ""
      ensures Valid() && this.name == name && this.nutrients == nutrients
    {
      this.name := name;
      this.nutrients := nutrients;
    }

    /** FoodItem(name, nutrients): an empty name raises ValueError; otherwise both
        arguments are stored as given (nutrient values are not checked). */
    static method New(name: string, nutrients: NutrientDict) returns (r: Result<FoodItem>)
      ensures r.Err? <==> name == ""
      ensures r.Err? ==> r.error == ValueError(EmptyNameMessage)
      ensures r.Ok? ==>
                fresh(r.value) && r.value.Valid() && r.value.name == name && r.value.nutrients == nutrients
    {
      if name == "" {
        return Err(ValueError(EmptyNameMessage));
      }
      var item := new FoodItem(name, nutrients);
      return Ok(item);
    }

    /** The name setter: an empty name raises ValueError and keeps the old one. */
    method SetName(newName: string) returns (out: Outcome)
      requires Valid()
      modifies this
      ensures Valid() && nutrients == old(nutrients)
      ensures newName == "" ==> out == Raised(ValueError("Name cannot be empty.")) && name == old(name)
      ensures newName != "" ==> out == Done && name == newName
    {
      if newName == "" {
        return Raised(ValueError("Name cannot be empty."));
      }
      name := newName;
      return Done;
    }

    /** The nutrients setter: the new dictionary replaces the old one. */
    method SetNutrients(newNutrients: NutrientDict)
      modifies this
      ensures nutrients == newNutrients && name == old(name)
    {
      nutrients := newNutrients;
    }

    function TotalCalories(): real
      reads this
    {
      Calories(nutrients)
    }

    function NutrientSummary(num: real -> string): string
      reads this
    {
      Summary(nutrients, num)
    }

    /** update_nutrient(key, value): a key not in the dictionary raises KeyError (checked
        before the value), a negative value raises ValueError, and either way nothing
        changes; otherwise exactly that entry takes the new value. */
    method UpdateNutrient(key: string, value: real) returns (out: Outcome)
      modifies this
      ensures name == old(name)
      ensures key !in Keys(old(nutrients)) ==>
        out == Raised(KeyError(key + " is not a valid nutrient.")) && nutrients == old(nutrients)
      ensures key in Keys(old(nutrients)) && value < 0.0 ==>
        out == Raised(ValueError("Nutrient values must be non-negative.")) && nutrients == old(nutrients)
      ensures key in Keys(old(nutrients)) && value >= 0.0 ==>
        out == Done && nutrients == Assign(old(nutrients), key, value)
        && Keys(nutrients) == Keys(old(nutrients))
        && Get(nutrients, key, 0.0) == value
        && forall k :: k != key ==> Get(nutrients, k, 0.0) == Get(old(nutrients), k, 0.0)
    {
      if key !in Keys(nutrients) {
        return Raised(KeyError(key + " is not a valid nutrient."));
      }
      if value < 0.0 {
        return Raised(ValueError("Nutrient values must be non-negative."));
      }
      AssignExisting(nutrients, key, value);
      nutrients := Assign(nutrients, key, value);
      return Done;
    }
  }
}
