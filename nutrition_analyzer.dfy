/** src/nutrition_analyzer.py: the label text, the three-way recommendation pass, the
    macro shares and the USDA record parser of NutritionAnalyzer. */
module NutritionAnalyzer {
  import opened PyCore
  import opened Values
  import FoodItems
  import FloatDicts

  // ---------------------------------------------------------------------------------
  // format_nutrition_facts
  // ---------------------------------------------------------------------------------

  /** "=" * 50 */
  function Rule(): (r: string)
    ensures |r| == 50
  {
    Repeat('=', 50)
  }

  /** The nutrient lines in the order they are shown: label, key, unit. */
  const FactRows: seq<(string, string, string)> := [
    ("Calories", "calories", "kcal"),
    ("Protein", "protein", "g"),
    ("Total Fat", "fat", "g"),
    ("Carbohydrates", "carbohydrates", "g"),
    ("Sugars", "sugars", "g"),
    ("Dietary Fiber", "fiber", "g"),
    ("Sodium", "sodium", "mg")
  ]

  /** f"{v:>10}": strings and numbers are right-aligned in ten columns; any other value
      has no format spec and raises TypeError. */
  function FormatField(v: Value, repr: Value -> string): Result<string>
  {
    match v
    case Str(s) => Ok(AlignRight(s, 10))
    case Num(_) => Ok(AlignRight(repr(v), 10))
    case Null => Err(TypeError("unsupported format string passed to NoneType.__format__"))
    case List(_) => Err(TypeError("unsupported format string passed to list.__format__"))
    case Dict(_) => Err(TypeError("unsupported format string passed to dict.__format__"))
  }

  /** A value f"{v:>10}" can render. */
  predicate Formattable(v: Value)
  {
    v.Str? || v.Num?
  }

  /** The lines show(label, key, unit) appends for the given rows, in order: a row whose
      value is missing or None adds nothing. */
  function ShownLines(d: Record, rows: seq<(string, string, string)>, repr: Value -> string)
    : Result<seq<string>>
  {
    if rows == [] then Ok([])
    else
      var v := Get(d, rows[0].1, Null);
      if v == Null then ShownLines(d, rows[1..], repr)
      else
        match FormatField(v, repr)
        case Err(e) => Err(e)
        case Ok(field) =>
          match ShownLines(d, rows[1..], repr)
          case Err(e) => Err(e)
          case Ok(rest) => Ok([AlignLeft(rows[0].0, 20) + field + " " + rows[0].2] + rest)
  }

  /** The labels of the rows that have a value that is not None. */
  function PresentLabels(d: Record, rows: seq<(string, string, string)>): seq<string>
  {
    if rows == [] then []
    else (if Get(d, rows[0].1, Null) != Null then [rows[0].0] else []) + PresentLabels(d, rows[1..])
  }

  /** Every row's value is missing, None, a string or a number. */
  predicate AllFormattable(d: Record, rows: seq<(string, string, string)>)
  {
    rows == [] || ((Get(d, rows[0].1, Null) == Null || Formattable(Get(d, rows[0].1, Null)))
                   && AllFormattable(d, rows[1..]))
  }

  /** The shown lines fail exactly when some row holds a list or a dict, and then with
      TypeError. */
  lemma {:induction false} ShownLinesFail(d: Record, rows: seq<(string, string, string)>,
                                          repr: Value -> string)
    ensures ShownLines(d, rows, repr).Ok? <==> AllFormattable(d, rows)
    ensures ShownLines(d, rows, repr).Err? ==> ShownLines(d, rows, repr).error.TypeError?
  {
    if rows != [] {
      ShownLinesFail(d, rows[1..], repr);
    }
  }

  /** Otherwise there is one line per present row, in row order, each starting with its
      label padded to 20 columns. */
  lemma {:induction false} ShownLinesFollowRows(d: Record, rows: seq<(string, string, string)>,
                                                 repr: Value -> string)
    requires ShownLines(d, rows, repr).Ok?
    ensures var ls, labels := ShownLines(d, rows, repr).value, PresentLabels(d, rows);
      && |ls| == |labels|
      && forall i :: 0 <= i < |ls| ==> StartsWith(ls[i], AlignLeft(labels[i], 20))
  {
    if rows != [] {
      var v := Get(d, rows[0].1, Null);
      if v == Null {
        ShownLinesFollowRows(d, rows[1..], repr);
      } else {
        var field := FormatField(v, repr).value;
        ShownLinesFollowRows(d, rows[1..], repr);
        var line := AlignLeft(rows[0].0, 20) + field + " " + rows[0].2;
        assert line[..|AlignLeft(rows[0].0, 20)|] == AlignLeft(rows[0].0, 20);
      }
    }
  }

  /** The header, the rules, the nutrient lines and the basis line. */
  function FactsLines(d: Record, repr: Value -> string): Result<seq<string>>
  {
    match ShownLines(d, FactRows, repr)
    case Err(e) => Err(e)
    case Ok(shown) =>
      var header := Show(Get(d, "brand_name", Str("")), repr) + " - "
                     + Show(Get(d, "food_name", Str("Unknown")), repr);
      var basis := "Basis: " + Show(Get(d, "unit_basis", Str("per 100 g")), repr);
      Ok([Rule(), header, Rule()] + shown + [basis, Rule()])
  }

  /** format_nutrition_facts(nutrients): `noData` when there is no dict or it is empty,
      else the lines joined by newlines. */
  function FormatNutritionFacts(nutrients: Option<Record>, noData: string, repr: Value -> string)
    : Result<string>
  {
    if nutrients.None? || nutrients.value == map[] then Ok(noData)
    else
      match FactsLines(nutrients.value, repr)
      case Err(e) => Err(e)
      case Ok(lines) => Ok(Join("\n", lines))
  }

  /** The analyzer's text for a missing or empty dict. */
  const NoDataMessage := "No nutrition data available."

  /** A missing or empty dict gives the no-data text; a non-empty one gives the label or,
      when a shown nutrient holds a list or a dict, TypeError.  The label is five fixed
      lines plus one per present nutrient: it starts and ends with the rule, the third
      line is the rule, the nutrient lines follow in the fixed order, and the basis line
      reads "per 100 g" unless the dict says otherwise. */
  lemma FormatNutritionFactsShape(nutrients: Option<Record>, noData: string, repr: Value -> string)
    ensures nutrients.None? || nutrients.value == map[] ==> FormatNutritionFacts(nutrients, noData, repr) == Ok(noData)
    ensures nutrients.Some? && nutrients.value != map[] ==>
              (FormatNutritionFacts(nutrients, noData, repr).Ok? <==> AllFormattable(nutrients.value, FactRows))
    ensures nutrients.Some? && nutrients.value != map[] && !AllFormattable(nutrients.value, FactRows) ==>
              FormatNutritionFacts(nutrients, noData, repr).error.TypeError?
    ensures nutrients.Some? && nutrients.value != map[] && AllFormattable(nutrients.value, FactRows) ==>
              var d := nutrients.value;
              var lines, text := FactsLines(d, repr).value, FormatNutritionFacts(nutrients, noData, repr).value;
              var labels := PresentLabels(d, FactRows);
              && text == Join("\n", lines)
              && |lines| == 5 + |labels|
              && lines[0] == Rule() && lines[2] == Rule() && lines[|lines| - 1] == Rule()
              && StartsWith(text, Rule()) && |Rule()| <= |text| && text[|text| - 50..] == Rule()
              && (forall i :: 0 <= i < |labels| ==> StartsWith(lines[3 + i], AlignLeft(labels[i], 20)))
              && lines[|lines| - 2] == "Basis: " + (if "unit_basis" in d then Show(d["unit_basis"], repr) else "per 100 g")
  {
    if nutrients.Some? && nutrients.value != map[] {
      var d := nutrients.value;
      ShownLinesFail(d, FactRows, repr);
      if AllFormattable(d, FactRows) {
        ShownLinesFollowRows(d, FactRows, repr);
        var lines := FactsLines(d, repr).value;
        JoinStartsWithFirst("\n", lines);
        JoinEndsWithLast("\n", lines);
      }
    }
  }

  // ---------------------------------------------------------------------------------
  // get_healthier_alternatives
  // ---------------------------------------------------------------------------------

  /** The three attributes the pass reads from each food. */
  datatype Candidate = Candidate(protein: real, fat: real, calorie: real)

  /** foodRecs: the "protein", "fat" and "calorie" entries, each a food or None. */
  datatype Alternatives = Alternatives(protein: Option<Candidate>, fat: Option<Candidate>,
                                       calorie: Option<Candidate>)

  /** foodRecs together with max_protein_per, min_calories and min_fat_per. */
  datatype Scan = Scan(recs: Alternatives, maxProteinPer: real, minCalories: real, minFatPer: real)

  /** The state before the first food: nothing chosen, the ratio maximum at 0 and both
      minima at the sentinel -1. */
  const Start := Scan(Alternatives(None, None, None), 0.0, -1.0, -1.0)

  function ProteinPer(c: Candidate): real
    requires c.calorie != 0.0
  {
    c.protein / c.calorie
  }

  function FatPer(c: Candidate): real
    requires c.calorie != 0.0
  {
    c.fat / c.calorie
  }

  predicate NoZeroCalorie(items: seq<Candidate>)
  {
    forall i :: 0 <= i < |items| ==> items[i].calorie != 0.0
  }

  /** One iteration of the loop body: three independent updates. */
  function Step(s: Scan, val: Candidate): Scan
    requires val.calorie != 0.0
  {
    var s1 := if ProteinPer(val) > s.maxProteinPer
              then s.(recs := s.recs.(protein := Some(val)), maxProteinPer := ProteinPer(val))
              else s;
    var s2 := if val.calorie < s1.minCalories || s1.minCalories == -1.0
              then s1.(recs := s1.recs.(calorie := Some(val)), minCalories := val.calorie)
              else s1;
    if FatPer(val) < s2.minFatPer || s2.minFatPer == -1.0
    then s2.(recs := s2.recs.(fat := Some(val)), minFatPer := FatPer(val))
    else s2
  }

  /** The state after the loop has seen all of items. */
  function ScanOf(items: seq<Candidate>): Scan
    requires NoZeroCalorie(items)
    decreases |items|
  {
    if items == [] then Start else Step(ScanOf(items[..|items| - 1]), items[|items| - 1])
  }

  /** What one step does to each criterion, separately. */
  lemma StepFields(s: Scan, val: Candidate)
    requires val.calorie != 0.0
    ensures var t := Step(s, val);
      && (t.recs.protein, t.maxProteinPer)
         == (if ProteinPer(val) > s.maxProteinPer then (Some(val), ProteinPer(val))
             else (s.recs.protein, s.maxProteinPer))
      && (t.recs.calorie, t.minCalories)
         == (if val.calorie < s.minCalories || s.minCalories == -1.0 then (Some(val), val.calorie)
             else (s.recs.calorie, s.minCalories))
      && (t.recs.fat, t.minFatPer)
         == (if FatPer(val) < s.minFatPer || s.minFatPer == -1.0 then (Some(val), FatPer(val))
             else (s.recs.fat, s.minFatPer))
  {
  }

  /** get_healthier_alternatives(fooditems): the recommendations, or ZeroDivisionError as
      soon as a food with zero calories is reached. */
  function Recommend(items: seq<Candidate>): Result<Alternatives>
  {
    if NoZeroCalorie(items) then Ok(ScanOf(items).recs) else Err(ZeroDivisionError)
  }

  method GetHealthierAlternatives(fooditems: seq<Candidate>) returns (r: Result<Alternatives>)
    ensures r == Recommend(fooditems)
  {
    var minCalories := -1.0;
    var maxProteinPer := 0.0;
    var minFatPer := -1.0;
    var foodRecs := Alternatives(None, None, None);
    for i := 0 to |fooditems|
      invariant NoZeroCalorie(fooditems[..i])
      invariant ScanOf(fooditems[..i]) == Scan(foodRecs, maxProteinPer, minCalories, minFatPer)
    {
      var val := fooditems[i];
      if val.calorie == 0.0 {
        return Err(ZeroDivisionError);
      }
      assert fooditems[..i + 1][..i] == fooditems[..i];
      var proPer := val.protein / val.calorie;
      if proPer > maxProteinPer {
        foodRecs := foodRecs.(protein := Some(val));
        maxProteinPer := proPer;
      }
      if val.calorie < minCalories || minCalories == -1.0 {
        foodRecs := foodRecs.(calorie := Some(val));
        minCalories := val.calorie;
      }
      var fatPer := val.fat / val.calorie;
      if fatPer < minFatPer || minFatPer == -1.0 {
        foodRecs := foodRecs.(fat := Some(val));
        minFatPer := fatPer;
      }
    }
    assert fooditems[..|fooditems|] == fooditems;
    return Ok(foodRecs);
  }

  /** The pass fails exactly when some food has zero calories. */
  lemma RecommendFails(items: seq<Candidate>)
    ensures Recommend(items).Err? <==> exists i :: 0 <= i < |items| && items[i].calorie == 0.0
    ensures Recommend(items).Err? ==> Recommend(items).error == ZeroDivisionError
  {
  }

  /** No food gives no recommendation; otherwise the calorie and fat entries are set, and
      every entry that is set is one of the foods. */
  lemma {:induction false} ScanPicksMembers(items: seq<Candidate>)
    requires NoZeroCalorie(items)
    ensures var recs := ScanOf(items).recs;
      && (items == [] ==> recs == Alternatives(None, None, None))
      && (items != [] ==> recs.calorie.Some? && recs.fat.Some?)
      && (recs.protein.Some? ==> recs.protein.value in items)
      && (recs.fat.Some? ==> recs.fat.value in items)
      && (recs.calorie.Some? ==> recs.calorie.value in items)
  {
    if items != [] {
      var init := items[..|items| - 1];
      ScanPicksMembers(init);
      assert forall x :: x in init ==> x in items;
    }
  }

  /** i holds the least calorie value and no earlier food has it. */
  ghost predicate FirstLeastCalorie(items: seq<Candidate>, i: nat)
  {
    && i < |items|
    && (forall j :: 0 <= j < |items| ==> items[i].calorie <= items[j].calorie)
    && (forall j :: 0 <= j < i ==> items[i].calorie < items[j].calorie)
  }

  /** When no calorie value equals the sentinel -1, the calorie entry is the first food
      with the least calorie value, and min_calories is that value. */
  lemma {:induction false} CalorieIsFirstLeast(items: seq<Candidate>) returns (i: nat)
    requires NoZeroCalorie(items) && items != []
    requires forall j :: 0 <= j < |items| ==> items[j].calorie != -1.0
    ensures FirstLeastCalorie(items, i)
    ensures ScanOf(items).recs.calorie == Some(items[i]) && ScanOf(items).minCalories == items[i].calorie
  {
    var n := |items|;
    var init, x := items[..n - 1], items[n - 1];
    assert forall j :: 0 <= j < n - 1 ==> init[j] == items[j];
    assert ScanOf(items) == Step(ScanOf(init), x);
    StepFields(ScanOf(init), x);
    if init == [] {
      i := 0;
    } else {
      var c := CalorieIsFirstLeast(init);
      if x.calorie < init[c].calorie {
        i := n - 1;
      } else {
        i := c;
      }
    }
  }

  /** i holds the least fat-per-calorie ratio and no earlier food has it. */
  ghost predicate FirstLeastFatRatio(items: seq<Candidate>, i: nat)
    requires NoZeroCalorie(items)
  {
    && i < |items|
    && (forall j :: 0 <= j < |items| ==> FatPer(items[i]) <= FatPer(items[j]))
    && (forall j :: 0 <= j < i ==> FatPer(items[i]) < FatPer(items[j]))
  }

  /** When no fat ratio equals the sentinel -1, the fat entry is the first food with the
      least fat-per-calorie ratio, and min_fat_per is that ratio. */
  lemma {:induction false} FatIsFirstLeast(items: seq<Candidate>) returns (i: nat)
    requires NoZeroCalorie(items) && items != []
    requires forall j :: 0 <= j < |items| ==> FatPer(items[j]) != -1.0
    ensures FirstLeastFatRatio(items, i)
    ensures ScanOf(items).recs.fat == Some(items[i]) && ScanOf(items).minFatPer == FatPer(items[i])
  {
    var n := |items|;
    var init, x := items[..n - 1], items[n - 1];
    assert forall j :: 0 <= j < n - 1 ==> init[j] == items[j];
    assert ScanOf(items) == Step(ScanOf(init), x);
    StepFields(ScanOf(init), x);
    if init == [] {
      i := 0;
    } else {
      var c := FatIsFirstLeast(init);
      if FatPer(x) < FatPer(init[c]) {
        i := n - 1;
      } else {
        i := c;
      }
    }
  }

  /** i holds a positive protein-per-calorie ratio that no food exceeds and that no
      earlier food reaches. */
  ghost predicate FirstGreatestProteinRatio(items: seq<Candidate>, i: nat)
    requires NoZeroCalorie(items)
  {
    && i < |items|
    && ProteinPer(items[i]) > 0.0
    && (forall j :: 0 <= j < |items| ==> ProteinPer(items[j]) <= ProteinPer(items[i]))
    && (forall j :: 0 <= j < i ==> ProteinPer(items[j]) < ProteinPer(items[i]))
  }

  /** The protein entry is None exactly when no ratio is positive (max_protein_per then
      stays 0); otherwise it is the first food with the greatest ratio. */
  lemma {:induction false} ProteinIsFirstGreatest(items: seq<Candidate>)
    requires NoZeroCalorie(items)
    ensures ScanOf(items).recs.protein.None? <==> forall j :: 0 <= j < |items| ==> ProteinPer(items[j]) <= 0.0
    ensures ScanOf(items).recs.protein.None? ==> ScanOf(items).maxProteinPer == 0.0
    ensures ScanOf(items).recs.protein.Some? ==>
              exists i: nat :: FirstGreatestProteinRatio(items, i)
                          && ScanOf(items).recs.protein == Some(items[i])
                          && ScanOf(items).maxProteinPer == ProteinPer(items[i])
  {
    if items != [] {
      var n := |items|;
      var init, x := items[..n - 1], items[n - 1];
      ProteinIsFirstGreatest(init);
      assert forall j :: 0 <= j < n - 1 ==> init[j] == items[j];
      assert ScanOf(items) == Step(ScanOf(init), x);
      StepFields(ScanOf(init), x);
      if ScanOf(init).recs.protein.Some? {
        var c: nat :| FirstGreatestProteinRatio(init, c)
                 && ScanOf(init).recs.protein == Some(init[c])
                 && ScanOf(init).maxProteinPer == ProteinPer(init[c]);
        if ProteinPer(x) > ProteinPer(init[c]) {
          assert FirstGreatestProteinRatio(items, n - 1);
        } else {
          assert FirstGreatestProteinRatio(items, c);
        }
      } else if ProteinPer(x) > 0.0 {
        assert FirstGreatestProteinRatio(items, n - 1);
      }
    }
  }

  /** The sentinel is an ordinary value to the calorie test: after a food with -1
      calories, min_calories is still -1, so the next food replaces it. */
  lemma CalorieSentinelQuirk()
    ensures ScanOf([Candidate(1.0, 1.0, -1.0), Candidate(1.0, 1.0, 5.0)]).recs.calorie
            == Some(Candidate(1.0, 1.0, 5.0))
  {
    var items := [Candidate(1.0, 1.0, -1.0), Candidate(1.0, 1.0, 5.0)];
    assert items[..1] == [Candidate(1.0, 1.0, -1.0)];
    assert items[..1][..0] == [];
  }

  // ---------------------------------------------------------------------------------
  // create_macro_breakdown
  // ---------------------------------------------------------------------------------

  /** The "protein", "fat" and "carbohydrates" entries of the breakdown. */
  datatype MacroShares = MacroShares(protein: real, fat: real, carbohydrates: real)

  /** round(v / total * 100, 2) */
  function Share(v: real, total: real): real
    requires total != 0.0
  {
    Round(v / total * 100.0, 2)
  }

  /** create_macro_breakdown over the nutrient dict: each macro defaults to 0; a zero
      total gives zeros, otherwise each macro's rounded percentage of the total. */
  function MacroBreakdown(d: FoodItems.NutrientDict): MacroShares
  {
    var p := FloatDicts.Get(d, "protein", 0.0);
    var f := FloatDicts.Get(d, "fat", 0.0);
    var c := FloatDicts.Get(d, "carbohydrates", 0.0);
    var total := p + f + c;
    if total == 0.0 then MacroShares(0.0, 0.0, 0.0)
    else MacroShares(Share(p, total), Share(f, total), Share(c, total))
  }

  /** Before rounding, the three percentages add up to 100. */
  lemma RawSharesSum(p: real, f: real, c: real)
    requires p + f + c != 0.0
    ensures p / (p + f + c) * 100.0 + f / (p + f + c) * 100.0 + c / (p + f + c) * 100.0 == 100.0
  {
    var t := p + f + c;
    DivOfSum(p, f, t);
    DivOfSum(p + f, c, t);
    assert t / t == 1.0;
  }

  /** A non-negative part of a positive total is between 0 and 100 percent, also after
      rounding. */
  lemma ShareBounds(v: real, total: real)
    requires 0.0 <= v <= total && total > 0.0
    ensures 0.0 <= v / total * 100.0 <= 100.0
    ensures 0.0 <= Share(v, total) <= 100.0
  {
    DivMonotone(0.0, v, total);
    DivMonotone(v, total, total);
    assert total / total == 1.0;
    RoundMonotone(0.0, v / total * 100.0, 2);
    RoundMonotone(v / total * 100.0, 100.0, 2);
    RoundOfDecimal(0, 2);
    RoundOfDecimal(10000, 2);
    assert Pow10(2) == 100.0;
  }

  /** Each rounded share is within 0.005 of the exact percentage, so the three add up to
      100 within 0.015; for non-negative macros each share lies in [0, 100]. */
  lemma MacroBreakdownShares(d: FoodItems.NutrientDict)
    ensures var p, f, c := FloatDicts.Get(d, "protein", 0.0), FloatDicts.Get(d, "fat", 0.0),
                           FloatDicts.Get(d, "carbohydrates", 0.0);
      var total, r := p + f + c, MacroBreakdown(d);
      && (total == 0.0 ==> r == MacroShares(0.0, 0.0, 0.0))
      && (total != 0.0 ==>
            && p / total * 100.0 - 0.005 <= r.protein <= p / total * 100.0 + 0.005
            && f / total * 100.0 - 0.005 <= r.fat <= f / total * 100.0 + 0.005
            && c / total * 100.0 - 0.005 <= r.carbohydrates <= c / total * 100.0 + 0.005
            && 100.0 - 0.015 <= r.protein + r.fat + r.carbohydrates <= 100.0 + 0.015)
      && (0.0 <= p && 0.0 <= f && 0.0 <= c && total != 0.0 ==>
            && 0.0 <= r.protein <= 100.0 && 0.0 <= r.fat <= 100.0 && 0.0 <= r.carbohydrates <= 100.0)
  {
    var p, f, c := FloatDicts.Get(d, "protein", 0.0), FloatDicts.Get(d, "fat", 0.0),
                   FloatDicts.Get(d, "carbohydrates", 0.0);
    if p + f + c != 0.0 {
      assert Pow10(2) == 100.0;
      RoundIsNear(p / (p + f + c) * 100.0, 2);
      RoundIsNear(f / (p + f + c) * 100.0, 2);
      RoundIsNear(c / (p + f + c) * 100.0, 2);
      RawSharesSum(p, f, c);
      if 0.0 <= p && 0.0 <= f && 0.0 <= c {
        ShareBounds(p, p + f + c);
        ShareBounds(f, p + f + c);
        ShareBounds(c, p + f + c);
      }
    }
  }

  // ---------------------------------------------------------------------------------
  // parse_usda_nutrients
  // ---------------------------------------------------------------------------------

  /** One element of foodNutrients: its nutrientName, value and unitName, each possibly
      missing. */
  datatype NutrientEntry = NutrientEntry(nutrientName: Option<string>, value: Option<Value>,
                                         unitName: Option<string>)

  /** The parts of a USDA food record the parser reads.  A missing foodNutrients list
      reads as the empty list, as food.get("foodNutrients", []) does. */
  datatype UsdaFood = UsdaFood(description: Option<Value>, brandOwner: Option<Value>,
                               foodNutrients: seq<NutrientEntry>)

  function OrElse<T>(o: Option<T>, default: T): T
  {
    if o.Some? then o.value else default
  }

  /** n.get("value", 0) */
  function EntryValue(e: NutrientEntry): Value
  {
    OrElse(e.value, Num(0.0))
  }

  /** The nutrient keys of the parsed dict, in their order. */
  const NutrientKeys: seq<string> :=
    ["calories", "protein", "fat", "carbohydrates", "sodium", "fiber", "sugars"]

  /** The dict before any entry is read. */
  function Initial(food: UsdaFood): Record
  {
    map["food_name" := OrElse(food.description, Str("Unknown")),
        "brand_name" := OrElse(food.brandOwner, Str("Generic/USDA")),
        "calories" := Null, "protein" := Null, "fat" := Null, "carbohydrates" := Null,
        "sodium" := Null, "fiber" := Null, "sugars" := Null]
  }

  /** The if/elif chain: the first branch whose test holds names the key the entry
      writes; an entry no branch accepts writes nothing.  Energy counts only in kcal. */
  function Classify(e: NutrientEntry): (k: Option<string>)
    ensures k.Some? ==> k.value in NutrientKeys
  {
    var name := Lower(OrElse(e.nutrientName, ""));
    var unit := Lower(OrElse(e.unitName, ""));
    if Contains(name, "energy") && Contains(unit, "kcal") then Some("calories")
    else if Contains(name, "protein") then Some("protein")
    else if Contains(name, "total lipid") || Contains(name, "fat") then Some("fat")
    else if Contains(name, "carbohydrate") then Some("carbohydrates")
    else if Contains(name, "fiber") then Some("fiber")
    else if Contains(name, "sugars") then Some("sugars")
    else if Contains(name, "sodium") then Some("sodium")
    else None
  }

  /** The dict after the entries es have been read in order. */
  function Parsed(food: UsdaFood, es: seq<NutrientEntry>): Record
    decreases |es|
  {
    if es == [] then Initial(food)
    else
      var m := Parsed(food, es[..|es| - 1]);
      var e := es[|es| - 1];
      match Classify(e)
      case None => m
      case Some(k) => m[k := EntryValue(e)]
  }

  /** parse_usda_nutrients(food) */
  method ParseUsdaNutrients(food: UsdaFood) returns (nutrients: Record)
    ensures nutrients == Parsed(food, food.foodNutrients)
  {
    nutrients := Initial(food);
    var es := food.foodNutrients;
    for i := 0 to |es|
      invariant nutrients == Parsed(food, es[..i])
    {
      var n := es[i];
      assert es[..i + 1][..i] == es[..i];
      assert Parsed(food, es[..i + 1]) == match Classify(n)
                                          case None => nutrients
                                          case Some(k) => nutrients[k := EntryValue(n)];
      var name := Lower(OrElse(n.nutrientName, ""));
      var val := OrElse(n.value, Num(0.0));
      var unit := Lower(OrElse(n.unitName, ""));
      if Contains(name, "energy") && Contains(unit, "kcal") {
        nutrients := nutrients["calories" := val];
      } else if Contains(name, "protein") {
        nutrients := nutrients["protein" := val];
      } else if Contains(name, "total lipid") || Contains(name, "fat") {
        nutrients := nutrients["fat" := val];
      } else if Contains(name, "carbohydrate") {
        nutrients := nutrients["carbohydrates" := val];
      } else if Contains(name, "fiber") {
        nutrients := nutrients["fiber" := val];
      } else if Contains(name, "sugars") {
        nutrients := nutrients["sugars" := val];
      } else if Contains(name, "sodium") {
        nutrients := nutrients["sodium" := val];
      }
    }
    assert es[..|es|] == es;
  }

  /** The position of the last entry that writes key k, if any. */
  function LastMatch(es: seq<NutrientEntry>, k: string): (r: Option<nat>)
    ensures r.Some? ==> r.value < |es| && Classify(es[r.value]) == Some(k)
                        && forall j :: r.value < j < |es| ==> Classify(es[j]) != Some(k)
    ensures r.None? ==> forall j :: 0 <= j < |es| ==> Classify(es[j]) != Some(k)
    decreases |es|
  {
    if es == [] then None
    else if Classify(es[|es| - 1]) == Some(k) then Some(|es| - 1)
    else LastMatch(es[..|es| - 1], k)
  }

  /** The nine keys of the parsed dict. */
  const ParsedKeys: set<string> :=
    {"food_name", "brand_name", "calories", "protein", "fat", "carbohydrates", "sodium", "fiber", "sugars"}

  /** The parsed dict has exactly the nine keys, and food_name and brand_name are the
      record's description and brandOwner or their defaults: no entry writes them. */
  lemma {:induction false} ParsedKeysAndNames(food: UsdaFood, es: seq<NutrientEntry>)
    ensures Parsed(food, es).Keys == ParsedKeys
    ensures Parsed(food, es)["food_name"] == OrElse(food.description, Str("Unknown"))
    ensures Parsed(food, es)["brand_name"] == OrElse(food.brandOwner, Str("Generic/USDA"))
    decreases |es|
  {
    if es != [] {
      ParsedKeysAndNames(food, es[..|es| - 1]);
    }
  }

  /** Every nutrient key holds the value of the last entry that writes it, so a later
      match overwrites an earlier one, or None when no entry writes it. */
  lemma {:induction false} ParsedNutrient(food: UsdaFood, es: seq<NutrientEntry>, k: string)
    requires k in NutrientKeys
    ensures k in Parsed(food, es)
    ensures Parsed(food, es)[k] == match LastMatch(es, k)
                                   case None => Null
                                   case Some(i) => EntryValue(es[i])
    decreases |es|
  {
    ParsedKeysAndNames(food, es);
    if es != [] {
      ParsedNutrient(food, es[..|es| - 1], k);
    }
  }
}
