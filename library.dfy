/** The helpers of the stand-alone app in library.py: the per-ounce conversion, the
    choice and ranking of OpenFoodFacts alternatives, the sodium entry of an
    OpenFoodFacts product and the keyword search.  Its format_nutrition_facts and
    parse_usda_nutrients are the analyzer's code again and are modelled once, in
    NutritionAnalyzer; only the no-data text differs. */
module Library {
  import opened PyCore
  import opened Values
  import opened Sorting
  import NutritionAnalyzer

  // ---------------------------------------------------------------------------------
  // convert_to_imperial_units
  // ---------------------------------------------------------------------------------

  /** GRAMS_PER_OUNCE / 100.0: from a per-100 g amount to a per-ounce one. */
  const PerOunceFactor: real := 28.3495 / 100.0

  /** The macros, converted to two decimals, in the order the loop visits them. */
  const MacroKeys: seq<string> := ["fat", "carbohydrates", "protein", "fiber", "sugars"]

  /** Every conversion step in order, with the decimals round() keeps: the macros, then
      sodium and calories to one decimal. */
  const Steps: seq<(string, nat)> :=
    [("fat", 2), ("carbohydrates", 2), ("protein", 2), ("fiber", 2), ("sugars", 2),
     ("sodium", 1), ("calories", 1)]

  const UnitBasis := "per ounce (~28 g)"

  /** round(v * per_oz_factor, places).  None is never scaled (the source skips it) and
      stays as it is; a string, a list or a dict cannot be multiplied by a float. */
  function Scale(v: Value, places: nat): Result<Value>
  {
    match v
    case Null => Ok(Null)
    case Num(x) => Ok(Num(Round(x * PerOunceFactor, places)))
    case Str(_) => Err(TypeError("can't multiply sequence by non-int of type 'float'"))
    case List(_) => Err(TypeError("can't multiply sequence by non-int of type 'float'"))
    case Dict(_) => Err(TypeError("unsupported operand type(s) for *: 'dict' and 'float'"))
  }

  /** A value the conversion can handle: absent, None or a number. */
  predicate Scalable(d: Record, k: string)
  {
    k !in d || d[k].Null? || d[k].Num?
  }

  /** One `if key in converted and converted[key] is not None` step. */
  function ConvertKey(d: Record, key: string, places: nat): Result<Record>
  {
    if key in d && d[key] != Null then
      match Scale(d[key], places)
      case Err(e) => Err(e)
      case Ok(v) => Ok(d[key := v])
    else Ok(d)
  }

  /** The dict after the given steps, the first exception ending them. */
  function ConvertKeys(d: Record, steps: seq<(string, nat)>): Result<Record>
    decreases |steps|
  {
    if steps == [] then Ok(d)
    else
      match ConvertKeys(d, steps[..|steps| - 1])
      case Err(e) => Err(e)
      case Ok(c) => ConvertKey(c, steps[|steps| - 1].0, steps[|steps| - 1].1)
  }

  /** convert_to_imperial_units(nutrients).  A missing or empty dict converts to an empty
      one. */
  function Imperial(nutrients: Option<Record>): Result<Record>
  {
    if nutrients.None? || nutrients.value == map[] then Ok(map[])
    else
      match ConvertKeys(nutrients.value, Steps)
      case Err(e) => Err(e)
      case Ok(c) => Ok(c["unit_basis" := Str(UnitBasis)])
  }

  /** convert_to_imperial_units.  The dict is a value, so the copy the source takes is
      the local `converted` itself and the caller's dict is never changed. */
  method ConvertToImperialUnits(nutrients: Option<Record>) returns (r: Result<Record>)
    ensures r == Imperial(nutrients)
  {
    if nutrients.None? || nutrients.value == map[] {
      return Ok(map[]);
    }
    var converted := nutrients.value;
    for i := 0 to |MacroKeys|
      invariant ConvertKeys(nutrients.value, Steps[..i]) == Ok(converted)
    {
      var key := MacroKeys[i];
      assert Steps[..i + 1][..i] == Steps[..i] && Steps[i] == (key, 2);
      if key in converted && converted[key] != Null {
        var scaled := Scale(converted[key], 2);
        if scaled.Err? {
          ConvertKeysStopsAtError(nutrients.value, Steps, i + 1);
          return Err(scaled.error);
        }
        converted := converted[key := scaled.value];
      }
    }
    assert Steps[..6][..5] == Steps[..5];
    if "sodium" in converted && converted["sodium"] != Null {
      var scaled := Scale(converted["sodium"], 1);
      if scaled.Err? {
        ConvertKeysStopsAtError(nutrients.value, Steps, 6);
        return Err(scaled.error);
      }
      converted := converted["sodium" := scaled.value];
    }
    assert Steps[..7][..6] == Steps[..6] && Steps[..7] == Steps;
    if "calories" in converted && converted["calories"] != Null {
      var scaled := Scale(converted["calories"], 1);
      if scaled.Err? {
        return Err(scaled.error);
      }
      converted := converted["calories" := scaled.value];
    }
    converted := converted["unit_basis" := Str(UnitBasis)];
    return Ok(converted);
  }

  /** Once a step has raised, the later ones do not run. */
  lemma {:induction false} ConvertKeysStopsAtError(d: Record, steps: seq<(string, nat)>, j: nat)
    requires 0 < j <= |steps| && ConvertKeys(d, steps[..j]).Err?
    ensures ConvertKeys(d, steps) == ConvertKeys(d, steps[..j])
    decreases |steps|
  {
    if j < |steps| {
      var init := steps[..|steps| - 1];
      assert init[..j] == steps[..j];
      ConvertKeysStopsAtError(d, init, j);
    } else {
      assert steps[..j] == steps;
    }
  }

  /** Steps over distinct keys scale each listed key to its decimals and leave every
      other entry alone; they raise TypeError exactly when a listed key holds a value
      that is neither None nor a number. */
  lemma {:induction false} ConvertKeysEntries(d: Record, steps: seq<(string, nat)>)
    requires forall i, j :: 0 <= i < j < |steps| ==> steps[i].0 != steps[j].0
    ensures ConvertKeys(d, steps).Ok? <==> forall i :: 0 <= i < |steps| ==> Scalable(d, steps[i].0)
    ensures ConvertKeys(d, steps).Err? ==> ConvertKeys(d, steps).error.TypeError?
    ensures ConvertKeys(d, steps).Ok? ==>
              && ConvertKeys(d, steps).value.Keys == d.Keys
              && (forall i :: 0 <= i < |steps| && steps[i].0 in d ==>
                    && Scale(d[steps[i].0], steps[i].1).Ok?
                    && ConvertKeys(d, steps).value[steps[i].0] == Scale(d[steps[i].0], steps[i].1).value)
              && (forall k :: k in d && (forall i :: 0 <= i < |steps| ==> steps[i].0 != k) ==>
                    ConvertKeys(d, steps).value[k] == d[k])
    decreases |steps|
  {
    if steps != [] {
      var init, w := steps[..|steps| - 1], steps[|steps| - 1];
      assert forall i :: 0 <= i < |init| ==> init[i] == steps[i];
      ConvertKeysEntries(d, init);
      var prev := ConvertKeys(d, init);
      if prev.Ok? {
        var c := prev.value;
        assert w.0 in c ==> w.0 in d && c[w.0] == d[w.0];
      } else {
        var i :| 0 <= i < |init| && !Scalable(d, init[i].0);
        assert steps[i] == init[i];
      }
    }
  }

  lemma StepKeysAreDistinct()
    ensures forall i, j :: 0 <= i < j < |Steps| ==> Steps[i].0 != Steps[j].0
  {
  }

  /** A non-empty dict converts to the same keys plus unit_basis: each step's key that
      holds a number becomes round(v * 0.283495, decimals), None stays None, every other
      key keeps its value, and the conversion raises TypeError exactly when a step's key
      holds a string, a list or a dict. */
  lemma ImperialEntries(n: Record)
    requires n != map[]
    ensures Imperial(Some(n)).Ok? <==> forall i :: 0 <= i < |Steps| ==> Scalable(n, Steps[i].0)
    ensures Imperial(Some(n)).Err? ==> Imperial(Some(n)).error.TypeError?
    ensures Imperial(Some(n)).Ok? ==>
              && Imperial(Some(n)).value.Keys == n.Keys + {"unit_basis"}
              && Imperial(Some(n)).value["unit_basis"] == Str(UnitBasis)
              && (forall i :: 0 <= i < |Steps| && Steps[i].0 in n && n[Steps[i].0].Num? ==>
                    Imperial(Some(n)).value[Steps[i].0] == Num(Round(n[Steps[i].0].x * PerOunceFactor, Steps[i].1)))
              && (forall i :: 0 <= i < |Steps| && Steps[i].0 in n && n[Steps[i].0].Null? ==>
                    Imperial(Some(n)).value[Steps[i].0] == Null)
              && (forall k :: k in n && k != "unit_basis" && (forall i :: 0 <= i < |Steps| ==> Steps[i].0 != k) ==>
                    Imperial(Some(n)).value[k] == n[k])
  {
    StepKeysAreDistinct();
    ConvertKeysEntries(n, Steps);
  }

  /** An empty or missing dict converts to an empty dict, with no unit_basis. */
  lemma ImperialOfNothing()
    ensures Imperial(None) == Ok(map[]) && Imperial(Some(map[])) == Ok(map[])
  {
  }

  // ---------------------------------------------------------------------------------
  // format_nutrition_facts
  // ---------------------------------------------------------------------------------

  /** This copy's text for a missing or empty dict: the analyzer's message after a
      warning sign. */
  const NoDataMessage := "\U{26A0}\U{FE0F} No nutrition data available."

  /** format_nutrition_facts of this file. */
  function FormatNutritionFacts(nutrients: Option<Record>, repr: Value -> string): Result<string>
  {
    NutritionAnalyzer.FormatNutritionFacts(nutrients, NoDataMessage, repr)
  }

  /** The two copies print the same label, or raise the same TypeError, for every
      non-empty dict; they differ only in the no-data text. */
  lemma FormatAgreesWithAnalyzer(nutrients: Option<Record>, repr: Value -> string)
    ensures nutrients.None? || nutrients.value == map[] ==>
              FormatNutritionFacts(nutrients, repr) == Ok(NoDataMessage)
    ensures nutrients.Some? && nutrients.value != map[] ==>
              FormatNutritionFacts(nutrients, repr)
              == NutritionAnalyzer.FormatNutritionFacts(nutrients, NutritionAnalyzer.NoDataMessage, repr)
  {
    NutritionAnalyzer.FormatNutritionFactsShape(nutrients, NoDataMessage, repr);
  }

  // ---------------------------------------------------------------------------------
  // get_healthier_alternatives: the candidate filter and the ranking
  // ---------------------------------------------------------------------------------

  /** One candidate dict: name, brand, url and the three nutriments it is ranked by. */
  datatype Alternative = Alternative(name: Value, brand: Value, url: Value,
                                     calories: Value, sugars: Value, fat: Value)

  /** all(k in n for k in (...)) on the product's nutriments: keys of a dict, substrings of
      a string, elements of a list; for None or a number the first test raises. */
  function HasAllNeeded(n: Value): Result<bool>
  {
    match n
    case Null => Err(TypeError("argument of type 'NoneType' is not iterable"))
    case Num(_) => Err(TypeError("argument of type 'float' is not iterable"))
    case Dict(f) => Ok("energy-kcal_100g" in f && "sugars_100g" in f && "fat_100g" in f)
    case Str(s) => Ok(Contains(s, "energy-kcal_100g") && Contains(s, "sugars_100g") && Contains(s, "fat_100g"))
    case List(items) => Ok(Str("energy-kcal_100g") in items && Str("sugars_100g") in items && Str("fat_100g") in items)
  }

  /** What one product adds to the candidates: nothing, one candidate, or the exception
      that ends the search (a string or a list that passes the test cannot be indexed by
      a key). */
  function CandidateOf(p: Record): Result<Option<Alternative>>
  {
    if "nutriments" !in p then Ok(None)
    else
      var n := p["nutriments"];
      match HasAllNeeded(n)
      case Err(e) => Err(e)
      case Ok(has) =>
        if !has then Ok(None)
        else if n.Str? then Err(TypeError("string indices must be integers"))
        else if !n.Dict? then Err(TypeError("list indices must be integers or slices, not str"))
        else
          Ok(Some(Alternative(Get(p, "product_name", Str("Unknown")), Get(p, "brands", Str("Unknown brand")),
                              Get(p, "url", Str("")), n.fields["energy-kcal_100g"],
                              n.fields["sugars_100g"], n.fields["fat_100g"])))
  }

  /** The candidates list after the loop has seen the products. */
  function Candidates(products: seq<Record>): Result<seq<Alternative>>
    decreases |products|
  {
    if products == [] then Ok([])
    else
      match Candidates(products[..|products| - 1])
      case Err(e) => Err(e)
      case Ok(cs) =>
        match CandidateOf(products[|products| - 1])
        case Err(e) => Err(e)
        case Ok(c) => Ok(if c.Some? then cs + [c.value] else cs)
  }

  /** The candidate loop of get_healthier_alternatives. */
  method CollectCandidates(products: seq<Record>) returns (r: Result<seq<Alternative>>)
    ensures r == Candidates(products)
  {
    var candidates: seq<Alternative> := [];
    for i := 0 to |products|
      invariant Candidates(products[..i]) == Ok(candidates)
    {
      var p := products[i];
      assert products[..i + 1][..i] == products[..i];
      if "nutriments" !in p {
        continue;
      }
      var n := p["nutriments"];
      var has := HasAllNeeded(n);
      if has.Err? {
        CandidatesStopAtError(products, i + 1);
        return Err(has.error);
      }
      if has.value {
        if !n.Dict? {
          CandidatesStopAtError(products, i + 1);
          return Err(TypeError(if n.Str? then "string indices must be integers"
                               else "list indices must be integers or slices, not str"));
        }
        candidates := candidates + [Alternative(Get(p, "product_name", Str("Unknown")),
                                                Get(p, "brands", Str("Unknown brand")),
                                                Get(p, "url", Str("")), n.fields["energy-kcal_100g"],
                                                n.fields["sugars_100g"], n.fields["fat_100g"])];
      }
    }
    assert products[..|products|] == products;
    return Ok(candidates);
  }

  lemma {:induction false} CandidatesStopAtError(products: seq<Record>, j: nat)
    requires 0 < j <= |products| && Candidates(products[..j]).Err?
    ensures Candidates(products) == Candidates(products[..j])
    decreases |products|
  {
    if j < |products| {
      var init := products[..|products| - 1];
      assert init[..j] == products[..j];
      CandidatesStopAtError(init, j);
    } else {
      assert products[..j] == products;
    }
  }

  /** A product becomes a candidate exactly when its nutriments are a dict holding the
      three keys; the candidate copies those three values and takes the name, brand and
      url with their defaults.  The search fails on nutriments that are None or a number,
      and on a string or list that passes the membership test. */
  lemma CandidateOfMeaning(p: Record)
    ensures CandidateOf(p).Ok? && CandidateOf(p).value.Some? <==>
              "nutriments" in p && p["nutriments"].Dict?
              && "energy-kcal_100g" in p["nutriments"].fields && "sugars_100g" in p["nutriments"].fields
              && "fat_100g" in p["nutriments"].fields
    ensures CandidateOf(p).Ok? && CandidateOf(p).value.Some? ==>
              var a, f := CandidateOf(p).value.value, p["nutriments"].fields;
              && a.calories == f["energy-kcal_100g"] && a.sugars == f["sugars_100g"] && a.fat == f["fat_100g"]
              && a.name == Get(p, "product_name", Str("Unknown")) && a.brand == Get(p, "brands", Str("Unknown brand"))
              && a.url == Get(p, "url", Str(""))
    ensures "nutriments" !in p ==> CandidateOf(p) == Ok(None)
    ensures CandidateOf(p).Err? <==>
              "nutriments" in p && (HasAllNeeded(p["nutriments"]).Err?
                                    || (HasAllNeeded(p["nutriments"]).value && !p["nutriments"].Dict?))
  {
  }

  /** Filtering commutes with concatenation: the candidates of two runs of products are
      the candidates of the first followed by those of the second, so candidates keep the
      input order, and the first failure wins. */
  lemma {:induction false} CandidatesAppend(xs: seq<Record>, ys: seq<Record>)
    ensures Candidates(xs + ys) ==
            match Candidates(xs)
            case Err(e) => Err(e)
            case Ok(a) =>
              match Candidates(ys)
              case Err(e) => Err(e)
              case Ok(b) => Ok(a + b)
    decreases |ys|
  {
    if ys == [] {
      assert xs + ys == xs;
      if Candidates(xs).Ok? {
        assert Candidates(xs).value + [] == Candidates(xs).value;
      }
    } else {
      var init, y := ys[..|ys| - 1], ys[|ys| - 1];
      CandidatesAppend(xs, init);
      assert (xs + ys)[..|xs + ys| - 1] == xs + init;
      assert (xs + ys)[|xs + ys| - 1] == y;
      if Candidates(xs).Ok? && Candidates(init).Ok? && CandidateOf(y).Ok? && CandidateOf(y).value.Some? {
        var a, b, c := Candidates(xs).value, Candidates(init).value, CandidateOf(y).value.value;
        assert a + b + [c] == a + (b + [c]);
      }
    }
  }

  /** The sort key x["calories"] + 2*x["sugars"] + 2*x["fat"], when all three are numbers. */
  predicate Rankable(a: Alternative)
  {
    a.calories.Num? && a.sugars.Num? && a.fat.Num?
  }

  function RankKey(a: Alternative): real
    requires Rankable(a)
  {
    a.calories.x + 2.0 * a.sugars.x + 2.0 * a.fat.x
  }

  predicate AllRankable(cs: seq<Alternative>)
  {
    forall i :: 0 <= i < |cs| ==> Rankable(cs[i])
  }

  function RankKeys(cs: seq<Alternative>): (keys: seq<real>)
    requires AllRankable(cs)
    ensures |keys| == |cs| && forall i :: 0 <= i < |cs| ==> keys[i] == RankKey(cs[i])
  {
    seq(|cs|, i requires 0 <= i < |cs| => RankKey(cs[i]))
  }

  /** s[:m]: a negative m drops that many items from the end. */
  function Slice<T>(s: seq<T>, m: int): seq<T>
  {
    if m >= 0 then s[..if m < |s| then m else |s|]
    else s[..if |s| + m > 0 then |s| + m else 0]
  }

  /** The alternatives get_healthier_alternatives returns for the products the search
      found.  Every exception inside the search is caught and gives an empty list, and
      a candidate whose three values are not all numbers makes the sort key raise. */
  function HealthierAlternatives(products: seq<Record>, maxResults: int): seq<Alternative>
  {
    match Candidates(products)
    case Err(_) => []
    case Ok(cs) =>
      if cs == [] || !AllRankable(cs) then []
      else Slice(StableSort(cs, RankKeys(cs)), maxResults)
  }

  /** The number of alternatives a caller gets when it passes no max_results. */
  const DefaultMaxResults: int := 3

  /** get_healthier_alternatives after its request: filter, sort by the key, keep the
      first max_results (DefaultMaxResults when the caller passes none). */
  method GetHealthierAlternatives(products: seq<Record>, maxResults: int) returns (r: seq<Alternative>)
    ensures r == HealthierAlternatives(products, maxResults)
  {
    if products == [] {
      return [];
    }
    var candidates := CollectCandidates(products);
    if candidates.Err? || candidates.value == [] {
      return [];
    }
    var cs := candidates.value;
    if !AllRankable(cs) {
      return [];
    }
    var ranked := StableSort(cs, RankKeys(cs));
    r := Slice(ranked, maxResults);
  }

  /** s[:m] keeps the first m items, or all but the last -m for a negative m, and never
      fewer than none. */
  lemma SliceLength<T>(s: seq<T>, m: int)
    ensures m >= 0 ==> |Slice(s, m)| == if m < |s| then m else |s|
    ensures m < 0 ==> |Slice(s, m)| == if |s| + m > 0 then |s| + m else 0
    ensures Slice(s, m) == s[..|Slice(s, m)|]
  {
  }

  /** Ranked candidates: the k-th is the candidate at position p[k], the keys ascend and
      equal keys keep the candidates' order. */
  lemma RankedCandidates(cs: seq<Alternative>, m: int)
    requires AllRankable(cs)
    ensures var r, p := Slice(StableSort(cs, RankKeys(cs)), m), SortedPositions(RankKeys(cs), |cs|);
      && |p| == |cs| && (forall k :: 0 <= k < |p| ==> p[k] < |cs|) && |r| <= |cs|
      && (forall k :: 0 <= k < |r| ==> r[k] == cs[p[k]])
      && (forall a, b :: 0 <= a < b < |r| ==> RankKey(r[a]) <= RankKey(r[b]))
      && (forall a, b :: 0 <= a < b < |r| && RankKey(r[a]) == RankKey(r[b]) ==> p[a] < p[b])
  {
    var keys := RankKeys(cs);
    var sorted := StableSort(cs, keys);
    var p := SortedPositions(keys, |cs|);
    StableSortIsStable(cs, keys);
    SliceLength(sorted, m);
    var r := Slice(sorted, m);
    assert forall k :: 0 <= k < |r| ==> r[k] == sorted[k];
    forall a, b | 0 <= a < b < |r| ensures RankKey(r[a]) <= RankKey(r[b]) {
      assert keys[p[a]] <= keys[p[b]];
    }
  }

  /** When the candidates can be ranked, the result keeps min(max_results, n) of them
      (n + max_results for a negative max_results, and at least none), in ranked order
      (RankedCandidates).  Otherwise, or when the search fails, the result is empty. */
  lemma HealthierAlternativesRanked(products: seq<Record>, maxResults: int)
    ensures Candidates(products).Err? ==> HealthierAlternatives(products, maxResults) == []
    ensures Candidates(products).Ok? && !AllRankable(Candidates(products).value) ==>
              HealthierAlternatives(products, maxResults) == []
    ensures Candidates(products).Ok? && AllRankable(Candidates(products).value) ==>
              var r, cs := HealthierAlternatives(products, maxResults), Candidates(products).value;
              && r == Slice(StableSort(cs, RankKeys(cs)), maxResults)
              && (maxResults >= 0 ==> |r| == if maxResults < |cs| then maxResults else |cs|)
              && (maxResults < 0 ==> |r| == if |cs| + maxResults > 0 then |cs| + maxResults else 0)
  {
    if Candidates(products).Ok? && AllRankable(Candidates(products).value) {
      var cs := Candidates(products).value;
      SliceLength(StableSort(cs, RankKeys(cs)), maxResults);
    }
  }

  /** With the default max_results, at most three alternatives come back. */
  lemma DefaultKeepsAtMostThree(products: seq<Record>)
    ensures |HealthierAlternatives(products, DefaultMaxResults)| <= 3
  {
    if Candidates(products).Ok? && Candidates(products).value != [] && AllRankable(Candidates(products).value) {
      var cs := Candidates(products).value;
      SliceLength(StableSort(cs, RankKeys(cs)), DefaultMaxResults);
    }
  }

  // ---------------------------------------------------------------------------------
  // get_openfoodfacts_food: the sodium entry
  // ---------------------------------------------------------------------------------

  /** s * n for a string or a list: n copies in a row. */
  function RepeatSeq<T>(s: seq<T>, n: nat): seq<T>
  {
    if n == 0 then [] else s + RepeatSeq(s, n - 1)
  }

  /** salt * 400: numbers scale, a string or a list repeats, None and a dict raise. */
  function TimesFourHundred(v: Value): Result<Value>
  {
    match v
    case Num(x) => Ok(Num(x * 400.0))
    case Str(s) => Ok(Str(RepeatSeq(s, 400)))
    case List(items) => Ok(List(RepeatSeq(items, 400)))
    case Null => Err(TypeError("unsupported operand type(s) for *: 'NoneType' and 'int'"))
    case Dict(_) => Err(TypeError("unsupported operand type(s) for *: 'dict' and 'int'"))
  }

  /** The sodium entry as written: the fallback that n.get receives is computed before
      the lookup, so it is computed even when sodium_100g is present. */
  function SodiumAsWritten(n: Record): Result<Value>
  {
    var fallback := if "salt_100g" in n then TimesFourHundred(n["salt_100g"]) else Ok(Num(0.0));
    match fallback
    case Err(e) => Err(e)
    case Ok(v) => Ok(Get(n, "sodium_100g", v))
  }

  /** nutriments with sodium_100g set and salt_100g null: the sodium value is there, yet
      the salt product raises, and get_openfoodfacts_food answers {}. */
  lemma SodiumAsWrittenFailsWithSodium()
    ensures var n := map["sodium_100g" := Num(0.4), "salt_100g" := Null];
      SodiumAsWritten(n).Err? && "sodium_100g" in n
  {
  }

  /** The sodium entry as intended: sodium_100g, else salt_100g * 400, else 0. */
  function Sodium(n: Record): Result<Value>
  {
    if "sodium_100g" in n then Ok(n["sodium_100g"])
    else if "salt_100g" in n then TimesFourHundred(n["salt_100g"])
    else Ok(Num(0.0))
  }

  /** sodium_100g is used whenever present; otherwise a numeric salt value is scaled by
      400, and a product with neither reads 0.  The fallback only fails when it is
      needed. */
  lemma SodiumCases(n: Record)
    ensures "sodium_100g" in n ==> Sodium(n) == Ok(n["sodium_100g"])
    ensures "sodium_100g" !in n && "salt_100g" in n && n["salt_100g"].Num? ==>
              Sodium(n) == Ok(Num(n["salt_100g"].x * 400.0))
    ensures "sodium_100g" !in n && "salt_100g" !in n ==> Sodium(n) == Ok(Num(0.0))
    ensures Sodium(n).Err? <==>
              "sodium_100g" !in n && "salt_100g" in n && (n["salt_100g"].Null? || n["salt_100g"].Dict?)
  {
  }

  /** The two agree except where the as-written one raises for a fallback it does not
      use. */
  lemma SodiumAgreesWithAsWritten(n: Record)
    ensures SodiumAsWritten(n).Ok? ==> Sodium(n) == SodiumAsWritten(n)
    ensures "sodium_100g" !in n ==> Sodium(n) == SodiumAsWritten(n)
  {
  }

  // ---------------------------------------------------------------------------------
  // search_keyword
  // ---------------------------------------------------------------------------------

  /** search_keyword(text, keyword) */
  function SearchKeyword(text: Value, keyword: Value): Result<bool>
  {
    if !text.Str? || !keyword.Str? then Err(ValueError("Both text and keyword must be strings."))
    else Ok(Contains(Lower(text.s), Lower(keyword.s)))
  }

  /** Anything but two strings raises ValueError; an empty keyword matches every text. */
  lemma SearchKeywordArguments(text: Value, keyword: Value)
    ensures SearchKeyword(text, keyword).Err? <==> !text.Str? || !keyword.Str?
    ensures SearchKeyword(text, keyword).Err? ==>
              SearchKeyword(text, keyword).error == ValueError("Both text and keyword must be strings.")
    ensures text.Str? && keyword == Str("") ==> SearchKeyword(text, keyword) == Ok(true)
  {
  }

  /** The search ignores case on both sides. */
  lemma SearchKeywordIgnoresCase(text: string, keyword: string)
    ensures SearchKeyword(Str(Lower(text)), Str(keyword)) == SearchKeyword(Str(text), Str(keyword))
    ensures SearchKeyword(Str(text), Str(Lower(keyword))) == SearchKeyword(Str(text), Str(keyword))
  {
    LowerIdempotent(text);
    LowerIdempotent(keyword);
  }

  /** keyword, ignoring case, occurs in text at position i. */
  predicate OccursAt(text: string, keyword: string, i: nat)
  {
    i + |keyword| <= |text| && Lower(text[i..i + |keyword|]) == Lower(keyword)
  }

  /** The keyword is found exactly when, ignoring case, it occurs somewhere in the text. */
  lemma SearchKeywordFinds(text: string, keyword: string)
    ensures SearchKeyword(Str(text), Str(keyword)) == Ok(true) <==> exists i: nat :: OccursAt(text, keyword, i)
  {
    if Contains(Lower(text), Lower(keyword)) {
      var i := ContainedOccurs(Lower(text), Lower(keyword));
      assert Lower(text[i..i + |keyword|]) == Lower(text)[i..i + |keyword|];
      assert OccursAt(text, keyword, i);
    }
    if exists i: nat :: OccursAt(text, keyword, i) {
      var i: nat :| OccursAt(text, keyword, i);
      assert Lower(text)[i..i + |keyword|] == Lower(text[i..i + |keyword|]);
      OccurrenceIsContained(Lower(text), Lower(keyword), i);
    }
  }
}
