/** src/foodcentral_manager.py: the pure steps of FCManager's search: the query prefix of
    searchDB, the tokenizer, the TF-IDF score, the relevance ranking and the dispatch of
    create_food_item. */
module FoodCentral {
  import opened PyCore
  import opened Values
  import opened Sorting
  import FoodItems
  import FloatDicts

  // ---------------------------------------------------------------------------------
  // tokenize
  // ---------------------------------------------------------------------------------

  const StopSymbols: seq<char> := ['.', ',', '(', ')']
  const StopWords: seq<string> := ["the", "in", "a"]

  /** [word for word in tokens if word not in stop_words] */
  function Filtered(ts: seq<string>): seq<string>
  {
    if ts == [] then []
    else (if ts[0] in StopWords then [] else [ts[0]]) + Filtered(ts[1..])
  }

  /** What tokenize(text) returns. */
  function TokenText(text: string): string
  {
    SpaceTerminated(Filtered(Split(Lower(text))))
  }

  lemma {:induction false} SpaceTerminatedSnoc(ts: seq<string>, t: string)
    ensures SpaceTerminated(ts + [t]) == SpaceTerminated(ts) + t + " "
  {
    if ts != [] {
      assert (ts + [t])[1..] == ts[1..] + [t];
      SpaceTerminatedSnoc(ts[1..], t);
    }
  }

  /** tokenize(text).  The stop-symbol loop calls text.replace and drops its result, so
      the text it goes on with is the original one. */
  method Tokenize(text: string) returns (filteredText: string)
    ensures filteredText == TokenText(text)
  {
    for s := 0 to |StopSymbols| {
      var _ := ReplaceChar(text, StopSymbols[s], " ");
    }
    var tokens := Split(Lower(text));
    var filteredTokens := Filtered(tokens);
    filteredText := "";
    for i := 0 to |filteredTokens|
      invariant filteredText == SpaceTerminated(filteredTokens[..i])
    {
      SpaceTerminatedSnoc(filteredTokens[..i], filteredTokens[i]);
      assert filteredTokens[..i + 1] == filteredTokens[..i] + [filteredTokens[i]];
      filteredText := filteredText + filteredTokens[i] + " ";
    }
    assert filteredTokens[..|filteredTokens|] == filteredTokens;
  }

  /** The kept tokens are tokens of the input and none is a stop word. */
  lemma {:induction false} FilteredMembers(ts: seq<string>)
    ensures forall k :: 0 <= k < |Filtered(ts)| ==> Filtered(ts)[k] in ts && Filtered(ts)[k] !in StopWords
  {
    if ts != [] {
      FilteredMembers(ts[1..]);
    }
  }

  /** Filtering twice is filtering once. */
  lemma {:induction false} FilteredIdempotent(ts: seq<string>)
    ensures Filtered(Filtered(ts)) == Filtered(ts)
  {
    if ts != [] {
      FilteredIdempotent(ts[1..]);
      if ts[0] !in StopWords {
        assert ([ts[0]] + Filtered(ts[1..]))[1..] == Filtered(ts[1..]);
      } else {
        assert Filtered(ts) == Filtered(ts[1..]);
      }
    }
  }

  /** Splitting the tokenizer's output gives back the lower-cased tokens without stop
      words, and none of them is a stop word. */
  lemma TokenTextSplits(text: string)
    ensures Split(TokenText(text)) == Filtered(Split(Lower(text)))
    ensures forall k :: 0 <= k < |Split(TokenText(text))| ==> Split(TokenText(text))[k] !in StopWords
  {
    FilteredMembers(Split(Lower(text)));
    SplitSpaceTerminated(Filtered(Split(Lower(text))));
  }

  /** Tokenizing a tokenized text changes nothing. */
  lemma TokenTextIdempotent(text: string)
    ensures TokenText(TokenText(text)) == TokenText(text)
  {
    var ts := Filtered(Split(Lower(text)));
    FilteredMembers(Split(Lower(text)));
    SplitOfLowerIsLower(text);
    LowerSpaceTerminated(ts);
    TokenTextSplits(text);
    FilteredIdempotent(Split(Lower(text)));
  }

  lemma {:induction false} WordOfWord(t: string)
    requires NoSpace(t)
    ensures Word(t) == t
  {
    if t != [] {
      WordOfWord(t[1..]);
    }
  }

  /** A text without whitespace is one token. */
  lemma SplitOfWord(t: string)
    requires t != [] && NoSpace(t)
    ensures Split(t) == [t]
  {
    WordOfWord(t);
    assert t[|t|..] == [];
  }

  /** Punctuation stays inside the tokens: one word that is not a stop word comes back
      lower-cased with its commas and stops, followed by one space. */
  lemma TokenizeKeepsPunctuation(t: string)
    requires t != [] && NoSpace(t) && Lower(t) !in StopWords
    ensures TokenText(t) == Lower(t) + " "
  {
    var w := Lower(t);
    assert NoSpace(w) by {
      forall i | 0 <= i < |w| ensures !IsSpace(w[i]) {
        assert w[i] == LowerChar(t[i]);
      }
    }
    SplitOfWord(w);
    assert Filtered([w]) == [w] by {
      assert [w][1..] == [];
    }
    assert SpaceTerminated([w]) == w + " " by {
      assert [w][1..] == [];
    }
  }

  /** For example "Milk," is tokenized to "milk, ". */
  lemma TokenizeKeepsComma()
    ensures TokenText("Milk,") == "milk, "
  {
    assert Lower("Milk,") == "milk,";
    assert "milk," !in StopWords;
    TokenizeKeepsPunctuation("Milk,");
  }

  // ---------------------------------------------------------------------------------
  // computeTFIDF
  // ---------------------------------------------------------------------------------

  /** tfDict after the counting loop has seen ws: the first occurrence of a word stores 0,
      each later one adds 1. */
  function Tf(ws: seq<string>): map<string, int>
    decreases |ws|
  {
    if ws == [] then map[]
    else
      var m, w := Tf(ws[..|ws| - 1]), ws[|ws| - 1];
      if w in m then m[w := m[w] + 1] else m[w := 0]
  }

  /** tfDict holds exactly the document's words, each mapped to its number of occurrences
      minus one. */
  lemma {:induction false} TfCounts(ws: seq<string>)
    ensures forall w :: w in Tf(ws) <==> w in ws
    ensures forall w :: w in ws ==> Tf(ws)[w] == multiset(ws)[w] - 1
    decreases |ws|
  {
    if ws != [] {
      var init, last := ws[..|ws| - 1], ws[|ws| - 1];
      TfCounts(init);
      assert ws == init + [last];
      assert multiset(ws) == multiset(init) + multiset{last};
      assert forall w :: w in ws <==> w in init || w == last;
    }
  }

  /** tfidfs after the query loop has seen qs: a dict in insertion order whose entry for a
      query word present in tfDict is tfDict[word] / len. */
  function Tfidfs(qs: seq<string>, tf: map<string, int>, len: real): FloatDicts.FloatDict
    requires len > 0.0 || tf == map[]
    decreases |qs|
  {
    if qs == [] then []
    else
      var d, w := Tfidfs(qs[..|qs| - 1], tf, len), qs[|qs| - 1];
      if w in tf then FloatDicts.Assign(d, w, tf[w] as real / len) else d
  }

  /** The sum of the dict's values, in its order. */
  function SumValues(d: seq<(string, real)>): real
    decreases |d|
  {
    if d == [] then 0.0 else SumValues(d[..|d| - 1]) + d[|d| - 1].1
  }

  lemma SplitOfEmpty(t: string)
    ensures Split(t) != [] ==> |t| > 0
  {
  }

  /** The tokenized document, its words and their counts. */
  function DocWords(text: string): seq<string>
  {
    Split(TokenText(text))
  }

  /** The tfidfs dict of the query against the document. */
  function TfidfsOf(text: string, query: string): FloatDicts.FloatDict
  {
    var t := TokenText(text);
    var tf := Tf(Split(t));
    TfCounts(Split(t));
    SplitOfEmpty(t);
    Tfidfs(Split(query), tf, |t| as real)
  }

  /** computeTFIDF(text, query) */
  function TfidfScore(text: string, query: string): real
  {
    SumValues(TfidfsOf(text, query))
  }

  method ComputeTfidf(text: string, query: string) returns (score: real)
    ensures score == TfidfScore(text, query)
  {
    var qwords := Split(query);
    var tokenized := Tokenize(text);
    var twords := Split(tokenized);
    var tfDict: map<string, int> := map[];
    for i := 0 to |twords|
      invariant tfDict == Tf(twords[..i])
    {
      var val := twords[i];
      assert twords[..i + 1][..i] == twords[..i];
      if val in tfDict {
        tfDict := tfDict[val := tfDict[val] + 1];
      } else {
        tfDict := tfDict[val := 0];
      }
    }
    assert twords[..|twords|] == twords;
    TfCounts(twords);
    if tfDict != map[] {
      SplitOfEmpty(tokenized);
    }
    var tfidfs: FloatDicts.FloatDict := [];
    for i := 0 to |qwords|
      invariant tfidfs == Tfidfs(qwords[..i], tfDict, |tokenized| as real)
    {
      var val := qwords[i];
      assert qwords[..i + 1][..i] == qwords[..i];
      if val in tfDict {
        tfidfs := FloatDicts.Assign(tfidfs, val, tfDict[val] as real / |tokenized| as real);
      }
    }
    assert qwords[..|qwords|] == qwords;
    score := 0.0;
    for i := 0 to |tfidfs|
      invariant score == SumValues(tfidfs[..i])
    {
      assert tfidfs[..i + 1][..i] == tfidfs[..i];
      score := score + tfidfs[i].1;
    }
    assert tfidfs[..|tfidfs|] == tfidfs;
  }

  /** The tfidfs entries are the distinct query words that occur in tfDict, each valued
      tfDict[word] / len. */
  lemma TfidfsEntries(qs: seq<string>, tf: map<string, int>, len: real)
    requires len > 0.0
    ensures forall k :: 0 <= k < |Tfidfs(qs, tf, len)| ==>
              var e := Tfidfs(qs, tf, len)[k];
              e.0 in qs && e.0 in tf && e.1 == tf[e.0] as real / len
    ensures forall w :: w in qs && w in tf ==> w in FloatDicts.Keys(Tfidfs(qs, tf, len))
  {
    TfidfsEntriesFromQuery(qs, tf, len);
    TfidfsCoversQuery(qs, tf, len);
  }

  lemma {:induction false} TfidfsEntriesFromQuery(qs: seq<string>, tf: map<string, int>, len: real)
    requires len > 0.0
    ensures forall k :: 0 <= k < |Tfidfs(qs, tf, len)| ==>
              var e := Tfidfs(qs, tf, len)[k];
              e.0 in qs && e.0 in tf && e.1 == tf[e.0] as real / len
    decreases |qs|
  {
    if qs != [] {
      var init, w := qs[..|qs| - 1], qs[|qs| - 1];
      TfidfsEntriesFromQuery(init, tf, len);
      assert qs == init + [w];
      assert forall x :: x in init ==> x in qs;
      var d := Tfidfs(init, tf, len);
      if w in tf {
        var v := tf[w] as real / len;
        if w in FloatDicts.Keys(d) {
          var idx := FloatDicts.IndexOf(d, w);
          assert FloatDicts.Assign(d, w, v) == d[idx := (w, v)];
        } else {
          assert FloatDicts.Assign(d, w, v) == d + [(w, v)];
        }
      }
    }
  }

  lemma {:induction false} TfidfsCoversQuery(qs: seq<string>, tf: map<string, int>, len: real)
    requires len > 0.0
    ensures forall w :: w in qs && w in tf ==> w in FloatDicts.Keys(Tfidfs(qs, tf, len))
    decreases |qs|
  {
    if qs != [] {
      var init, w := qs[..|qs| - 1], qs[|qs| - 1];
      TfidfsCoversQuery(init, tf, len);
      assert qs == init + [w];
      assert forall x :: x in qs ==> x in init || x == w;
      var d := Tfidfs(init, tf, len);
      if w in tf {
        var v := tf[w] as real / len;
        if w in FloatDicts.Keys(d) {
          FloatDicts.AssignExisting(d, w, v);
        } else {
          assert FloatDicts.Keys(d + [(w, v)]) == FloatDicts.Keys(d) + [w];
        }
      }
    }
  }

  /** A sum of non-negative values is non-negative, and positive exactly when some value
      is. */
  lemma {:induction false} SumOfNonNegative(d: seq<(string, real)>)
    requires forall k :: 0 <= k < |d| ==> d[k].1 >= 0.0
    ensures SumValues(d) >= 0.0
    ensures SumValues(d) > 0.0 <==> exists k :: 0 <= k < |d| && d[k].1 > 0.0
    decreases |d|
  {
    if d != [] {
      SumOfNonNegative(d[..|d| - 1]);
      assert forall k :: 0 <= k < |d| - 1 ==> d[..|d| - 1][k] == d[k];
    }
  }

  /** The score of a tfidfs dict over non-negative counts: never negative, and positive
      exactly when some query word has a positive count. */
  lemma TfidfsSum(qs: seq<string>, tf: map<string, int>, len: real)
    requires len > 0.0
    requires forall w :: w in tf ==> tf[w] >= 0
    ensures SumValues(Tfidfs(qs, tf, len)) >= 0.0
    ensures SumValues(Tfidfs(qs, tf, len)) > 0.0 <==> exists w :: w in qs && w in tf && tf[w] > 0
  {
    var d := Tfidfs(qs, tf, len);
    TfidfsEntries(qs, tf, len);
    forall k | 0 <= k < |d| ensures d[k].0 in tf && d[k].1 >= 0.0 && (d[k].1 > 0.0 <==> tf[d[k].0] > 0) {
      DivPositive(tf[d[k].0] as real, len);
    }
    SumOfNonNegative(d);
    if exists w :: w in qs && w in tf && tf[w] > 0 {
      var w :| w in qs && w in tf && tf[w] > 0;
      var k := FloatDicts.IndexOf(d, w);
      assert d[k].1 > 0.0;
    }
  }

  lemma DivPositive(a: real, len: real)
    requires len > 0.0 && a >= 0.0
    ensures a / len >= 0.0 && (a / len > 0.0 <==> a > 0.0)
  {
  }

  /** The tfidfs entries are the distinct query words found in the tokenized document,
      each valued (occurrences - 1) / character length of that text. */
  lemma TfidfsOfEntries(text: string, query: string)
    ensures var d, ws, len := TfidfsOf(text, query), DocWords(text), |TokenText(text)| as real;
      forall k :: 0 <= k < |d| ==>
        d[k].0 in Split(query) && d[k].0 in ws && d[k].1 == (multiset(ws)[d[k].0] - 1) as real / len
    ensures var d, ws := TfidfsOf(text, query), DocWords(text);
      forall w :: w in Split(query) && w in ws ==> w in FloatDicts.Keys(d)
  {
    TfidfsOfValues(text, query);
    TfidfsOfCovers(text, query);
  }

  lemma TfidfsOfValues(text: string, query: string)
    ensures var d, ws, len := TfidfsOf(text, query), DocWords(text), |TokenText(text)| as real;
      forall k :: 0 <= k < |d| ==>
        d[k].0 in Split(query) && d[k].0 in ws && d[k].1 == (multiset(ws)[d[k].0] - 1) as real / len
  {
    var t, ws, qs := TokenText(text), DocWords(text), Split(query);
    TfCounts(ws);
    if Tf(ws) == map[] {
      TfidfsEmpty(qs, |t| as real);
    } else {
      SplitOfEmpty(t);
      TfidfsEntriesFromQuery(qs, Tf(ws), |t| as real);
    }
  }

  lemma TfidfsOfCovers(text: string, query: string)
    ensures var d, ws := TfidfsOf(text, query), DocWords(text);
      forall w :: w in Split(query) && w in ws ==> w in FloatDicts.Keys(d)
  {
    var t, ws, qs := TokenText(text), DocWords(text), Split(query);
    TfCounts(ws);
    if Tf(ws) != map[] {
      SplitOfEmpty(t);
      TfidfsCoversQuery(qs, Tf(ws), |t| as real);
    }
  }

  /** The score, the sum of the tfidfs values, is never negative, and it is positive
      exactly when some query word occurs at least twice in the tokenized document. */
  lemma TfidfScoreSign(text: string, query: string)
    ensures TfidfScore(text, query) >= 0.0
    ensures TfidfScore(text, query) > 0.0 <==>
              exists w :: w in Split(query) && multiset(DocWords(text))[w] >= 2
  {
    var t, ws, qs := TokenText(text), DocWords(text), Split(query);
    var tf := Tf(ws);
    TfCounts(ws);
    if tf == map[] {
      assert forall w :: w !in ws;
      TfidfsEmpty(qs, |t| as real);
    } else {
      SplitOfEmpty(t);
      TfidfsSum(qs, tf, |t| as real);
      assert forall w :: w in qs && w in tf ==> (tf[w] > 0 <==> multiset(ws)[w] >= 2);
    }
  }

  lemma {:induction false} TfidfsEmpty(qs: seq<string>, len: real)
    ensures Tfidfs(qs, map[], len) == []
    decreases |qs|
  {
    if qs != [] {
      TfidfsEmpty(qs[..|qs| - 1], len);
    }
  }

  // ---------------------------------------------------------------------------------
  // create_food_item
  // ---------------------------------------------------------------------------------

  /** The constructor create_food_item calls and the values it passes, in the order of
      the call. */
  datatype Made =
    | Foundation(description: Value, foodNutrients: Value, scientificName: Value)
    | Branded(description: Value, brandOwner: Value, foodNutrients: Value,
              ingredients: Value, gtinUpc: Value)
    | Generic(description: Value, foodNutrients: Value)

  /** food_data[k] for each k in turn: the values, or KeyError at the first missing key. */
  function Lookup(d: Record, ks: seq<string>): (r: Result<seq<Value>>)
    ensures r.Ok? ==> |r.value| == |ks|
  {
    if ks == [] then Ok([])
    else if ks[0] !in d then Err(KeyError(ks[0]))
    else
      match Lookup(d, ks[1..])
      case Err(e) => Err(e)
      case Ok(vs) => Ok([d[ks[0]]] + vs)
  }

  /** The lookups succeed exactly when every key is present, and then give the values in
      order; otherwise the error is KeyError of the first missing key. */
  lemma {:induction false} LookupMeaning(d: Record, ks: seq<string>)
    ensures Lookup(d, ks).Ok? <==> forall i :: 0 <= i < |ks| ==> ks[i] in d
    ensures Lookup(d, ks).Ok? ==>
              |Lookup(d, ks).value| == |ks| && forall i :: 0 <= i < |ks| ==> Lookup(d, ks).value[i] == d[ks[i]]
    ensures Lookup(d, ks).Err? ==>
              exists i :: 0 <= i < |ks| && ks[i] !in d && Lookup(d, ks).error == KeyError(ks[i])
                          && forall j :: 0 <= j < i ==> ks[j] in d
  {
    if ks != [] && ks[0] in d {
      LookupMeaning(d, ks[1..]);
      if Lookup(d, ks[1..]).Err? {
        var i :| 0 <= i < |ks[1..]| && ks[1..][i] !in d && Lookup(d, ks[1..]).error == KeyError(ks[1..][i])
                 && forall j :: 0 <= j < i ==> ks[1..][j] in d;
        assert ks[i + 1] !in d;
      }
    }
  }

  const FoundationKeys: seq<string> := ["description", "foodNutrients", "scientificName"]
  const BrandedKeys: seq<string> := ["description", "brandOwner", "foodNutrients", "ingredients", "gtinUpc"]
  const GenericKeys: seq<string> := ["description", "foodNutrients"]

  /** The keys the constructor for this dataType reads. */
  function KeysFor(dataType: Value): seq<string>
  {
    if dataType == Str("Foundation") then FoundationKeys
    else if dataType == Str("Branded") then BrandedKeys
    else GenericKeys
  }

  /** FoodItem.__init__(name, nutrients) on decoded values: the name must be a non-empty
      string, then the nutrients a dict. */
  function FoodItemInit(name: Value, nutrients: Value): Option<Error>
  {
    if !name.Str? || name.s == "" then Some(ValueError(FoodItems.EmptyNameMessage))
    else if !nutrients.Dict? then Some(ValueError(FoodItems.NotADictMessage))
    else None
  }

  /** v.strip(): only a string has the method. */
  function StripCall(v: Value): Option<Error>
  {
    if v.Str? then None else Some(AttributeError("'" + TypeName(v) + "' object has no attribute 'strip'"))
  }

  /** The first item of a list comprehension `[i.strip() for i in items]` that fails. */
  function FirstStripError(items: seq<Value>): (r: Option<Error>)
    ensures r.None? <==> forall i :: 0 <= i < |items| ==> items[i].Str?
    ensures r.Some? ==> r.value.AttributeError?
  {
    if items == [] then None
    else if !items[0].Str? then StripCall(items[0])
    else FirstStripError(items[1..])
  }

  /** `[i.strip() for i in v]`: iterating a string gives one-character strings and a dict
      its keys, which all strip; a list needs every item to be a string; None and numbers
      are not iterable. */
  function StripEach(v: Value): Option<Error>
  {
    match v
    case Str(_) => None
    case Dict(_) => None
    case List(items) => FirstStripError(items)
    case _ => Some(TypeError("'" + TypeName(v) + "' object is not iterable"))
  }

  /** The values `[i.strip() for i in v]` accepts. */
  predicate StripsEach(v: Value)
  {
    v.Str? || v.Dict? || (v.List? && forall i :: 0 <= i < |v.items| ==> v.items[i].Str?)
  }

  /** BrandedFoodItem.__init__(name, nutrients, brand_name, ingredients, upc) on decoded
      values: FoodItem's checks, then brand_name.strip(), the ingredients and upc.strip(),
      in that order. */
  function BrandedInit(name: Value, nutrients: Value, brandName: Value, ingredients: Value, upc: Value)
    : Option<Error>
  {
    if FoodItemInit(name, nutrients).Some? then FoodItemInit(name, nutrients)
    else if StripCall(brandName).Some? then StripCall(brandName)
    else if StripEach(ingredients).Some? then StripEach(ingredients)
    else StripCall(upc)
  }

  /** create_food_item(food_data): None for anything but a dict; otherwise the match on
      food_data["dataType"], the subscripts of the call in order, and then the checks of
      the constructor called.  The Branded call passes its values positionally, so
      brandOwner lands in the nutrients slot and foodNutrients in brand_name. */
  function CreateFoodItem(food: Value): Result<Option<Made>>
  {
    if !food.Dict? then Ok(None)
    else
      var d := food.fields;
      if "dataType" !in d then Err(KeyError("dataType"))
      else
        match Lookup(d, KeysFor(d["dataType"]))
        case Err(e) => Err(e)
        case Ok(vs) =>
          if d["dataType"] == Str("Foundation") then Ok(Some(Foundation(vs[0], vs[1], vs[2])))
          else if d["dataType"] == Str("Branded") then
            var failure := BrandedInit(vs[0], vs[1], vs[2], vs[3], vs[4]);
            if failure.Some? then Err(failure.value) else Ok(Some(Branded(vs[0], vs[1], vs[2], vs[3], vs[4])))
          else
            var failure := FoodItemInit(vs[0], vs[1]);
            if failure.Some? then Err(failure.value) else Ok(Some(Generic(vs[0], vs[1])))
  }

  /** A non-dict gives None.  A dict without "dataType" raises KeyError("dataType"); with
      it, a KeyError is raised exactly when a key the selected call reads is absent (the
      constructors raise other errors).  A Foundation record with its keys gives that
      constructor, with the dict's values. */
  lemma CreateFoodItemDispatch(food: Value)
    ensures !food.Dict? <==> CreateFoodItem(food) == Ok(None)
    ensures food.Dict? && "dataType" !in food.fields ==> CreateFoodItem(food) == Err(KeyError("dataType"))
    ensures food.Dict? && "dataType" in food.fields ==>
              var ks := KeysFor(food.fields["dataType"]);
              (CreateFoodItem(food).Err? && CreateFoodItem(food).error.KeyError?)
              <==> exists i :: 0 <= i < |ks| && ks[i] !in food.fields
    ensures food.Dict? && Get(food.fields, "dataType", Null) == Str("Foundation")
            && "description" in food.fields && "foodNutrients" in food.fields
            && "scientificName" in food.fields ==>
              var d := food.fields;
              CreateFoodItem(food)
              == Ok(Some(Foundation(d["description"], d["foodNutrients"], d["scientificName"])))
  {
    if food.Dict? && "dataType" in food.fields {
      LookupMeaning(food.fields, KeysFor(food.fields["dataType"]));
    }
  }

  /** A record of any dataType other than Foundation and Branded, with description and
      foodNutrients, becomes a plain FoodItem exactly when the description is a non-empty
      string and foodNutrients a dict.  Otherwise the constructor's ValueError is raised,
      about the name first.  So the list USDA sends as foodNutrients always raises. */
  lemma GenericConstruction(food: Value)
    requires food.Dict? && "dataType" in food.fields
    requires food.fields["dataType"] != Str("Foundation") && food.fields["dataType"] != Str("Branded")
    requires "description" in food.fields && "foodNutrients" in food.fields
    ensures var d, r := food.fields, CreateFoodItem(food);
      && (r.Ok? <==> d["description"].Str? && d["description"].s != "" && d["foodNutrients"].Dict?)
      && (r.Ok? ==> r.value == Some(Generic(d["description"], d["foodNutrients"])))
      && (!d["description"].Str? || d["description"].s == "" ==> r == Err(ValueError(FoodItems.EmptyNameMessage)))
      && (d["description"].Str? && d["description"].s != "" && !d["foodNutrients"].Dict? ==>
            r == Err(ValueError(FoodItems.NotADictMessage)))
  {
    LookupMeaning(food.fields, GenericKeys);
  }

  /** A Branded record with its five keys becomes a BrandedFoodItem exactly when the
      description is a non-empty string, brandOwner (in the nutrients slot) a dict,
      foodNutrients (in the brand slot) and gtinUpc strings, and the ingredients
      something whose items strip.  A bad description or brandOwner raises the
      constructor's ValueError; the later checks raise AttributeError or TypeError.  So
      the string brandOwner USDA sends always raises. */
  lemma BrandedConstruction(food: Value)
    requires food.Dict? && "dataType" in food.fields && food.fields["dataType"] == Str("Branded")
    requires "description" in food.fields && "brandOwner" in food.fields && "foodNutrients" in food.fields
    requires "ingredients" in food.fields && "gtinUpc" in food.fields
    ensures var d, r := food.fields, CreateFoodItem(food);
      && (r.Ok? <==> d["description"].Str? && d["description"].s != "" && d["brandOwner"].Dict?
                     && d["foodNutrients"].Str? && StripsEach(d["ingredients"]) && d["gtinUpc"].Str?)
      && (r.Ok? ==> r.value == Some(Branded(d["description"], d["brandOwner"], d["foodNutrients"],
                                            d["ingredients"], d["gtinUpc"])))
      && (!d["description"].Str? || d["description"].s == "" ==> r == Err(ValueError(FoodItems.EmptyNameMessage)))
      && (d["description"].Str? && d["description"].s != "" && !d["brandOwner"].Dict? ==>
            r == Err(ValueError(FoodItems.NotADictMessage)))
      && (d["description"].Str? && d["description"].s != "" && d["brandOwner"].Dict? && r.Err? ==>
            r.error.AttributeError? || r.error.TypeError?)
  {
    LookupMeaning(food.fields, BrandedKeys);
  }

  // ---------------------------------------------------------------------------------
  // get_relevant
  // ---------------------------------------------------------------------------------

  /** str(val[k]) when k is present, else nothing. */
  function Part(val: Record, k: string, repr: Value -> string): string
  {
    if k in val then Show(val[k], repr) else ""
  }

  /** docRepr: str() of description, ingredients, brandedFoodCategory and brandOwner,
      those present, concatenated without separators. */
  function DocRepr(val: Record, repr: Value -> string): string
  {
    Part(val, "description", repr) + Part(val, "ingredients", repr)
    + Part(val, "brandedFoodCategory", repr) + Part(val, "brandOwner", repr)
  }

  /** The relScore of each result. */
  function Scores(results: seq<Record>, query: string, repr: Value -> string): (r: seq<real>)
    ensures |r| == |results|
    ensures forall i :: 0 <= i < |results| ==> r[i] == TfidfScore(DocRepr(results[i], repr), query)
  {
    seq(|results|, i requires 0 <= i < |results| => TfidfScore(DocRepr(results[i], repr), query))
  }

  /** The results after the scoring loop wrote relScore into each. */
  function Scored(results: seq<Record>, query: string, repr: Value -> string): (r: seq<Record>)
    ensures |r| == |results|
    ensures forall i :: 0 <= i < |results| ==>
              r[i] == results[i]["relScore" := Num(TfidfScore(DocRepr(results[i], repr), query))]
  {
    seq(|results|, i requires 0 <= i < |results| =>
          results[i]["relScore" := Num(TfidfScore(DocRepr(results[i], repr), query))])
  }

  function Min(a: nat, b: nat): nat
  {
    if a < b then a else b
  }

  /** The results sorted by ascending relScore and cut after the first 100. */
  function Ranked(results: seq<Record>, query: string, repr: Value -> string): seq<Record>
  {
    var sorted := StableSort(Scored(results, query, repr), Scores(results, query, repr));
    sorted[..Min(100, |results|)]
  }

  /** create_food_item on each ranked result in order, stopping at the first error. */
  function CreateAll(vals: seq<Record>): Result<seq<Option<Made>>>
    decreases |vals|
  {
    if vals == [] then Ok([])
    else
      match CreateAll(vals[..|vals| - 1])
      case Err(e) => Err(e)
      case Ok(made) =>
        match CreateFoodItem(Dict(vals[|vals| - 1]))
        case Err(e) => Err(e)
        case Ok(m) => Ok(made + [m])
  }

  /** get_relevant(query, results): the food items the ranking returns. */
  function Relevant(results: seq<Record>, query: string, repr: Value -> string): Result<seq<Option<Made>>>
  {
    CreateAll(Ranked(results, query, repr))
  }

  /** The scoring loop of get_relevant: each result gets its document string and its
      relScore, and the scores are the sort keys, since x.get('relScore', 0) reads back
      the score just written.  `scored` is the results as the loop leaves them. */
  method ScoreResults(query: string, results: seq<Record>, repr: Value -> string)
    returns (scored: seq<Record>, keys: seq<real>)
    ensures scored == Scored(results, query, repr)
    ensures keys == Scores(results, query, repr)
  {
    scored := [];
    keys := [];
    for i := 0 to |results|
      invariant scored == Scored(results, query, repr)[..i]
      invariant keys == Scores(results, query, repr)[..i]
    {
      var val := results[i];
      var docRepr := "";
      if "description" in val {
        docRepr := docRepr + Show(val["description"], repr);
      }
      assert docRepr == Part(val, "description", repr);
      if "ingredients" in val {
        docRepr := docRepr + Show(val["ingredients"], repr);
      }
      assert docRepr == Part(val, "description", repr) + Part(val, "ingredients", repr);
      if "brandedFoodCategory" in val {
        docRepr := docRepr + Show(val["brandedFoodCategory"], repr);
      }
      assert docRepr == Part(val, "description", repr) + Part(val, "ingredients", repr)
                        + Part(val, "brandedFoodCategory", repr);
      if "brandOwner" in val {
        docRepr := docRepr + Show(val["brandOwner"], repr);
      }
      assert docRepr == DocRepr(val, repr);
      var score := ComputeTfidf(docRepr, query);
      PrefixSnoc(Scored(results, query, repr), i);
      PrefixSnoc(Scores(results, query, repr), i);
      scored := scored + [val["relScore" := Num(score)]];
      keys := keys + [score];
    }
  }

  /** get_relevant.  Besides the ranking it returns, it leaves each result dict with its
      relScore written, which `scored` reports. */
  method GetRelevant(query: string, results: seq<Record>, repr: Value -> string)
    returns (scored: seq<Record>, ranked: Result<seq<Option<Made>>>)
    ensures scored == Scored(results, query, repr)
    ensures ranked == Relevant(results, query, repr)
  {
    var keys;
    scored, keys := ScoreResults(query, results, repr);
    var sorted := StableSort(scored, keys);
    assert sorted[..Min(100, |sorted|)] == Ranked(results, query, repr);
    ranked := CreateRanked(sorted);
  }

  /** The second loop of get_relevant: create_food_item on each sorted result until 100
      have been made, stopping at the first error. */
  method CreateRanked(sorted: seq<Record>) returns (ranked: Result<seq<Option<Made>>>)
    ensures ranked == CreateAll(sorted[..Min(100, |sorted|)])
  {
    var made: seq<Option<Made>> := [];
    var i := 0;
    while i < |sorted|
      invariant 0 <= i <= Min(100, |sorted|)
      invariant CreateAll(sorted[..i]) == Ok(made)
    {
      if i >= 100 {
        break;
      }
      var tempFood := CreateFoodItem(Dict(sorted[i]));
      CreateAllSnoc(sorted, i);
      if tempFood.Err? {
        CreateAllStopsAtError(sorted[..i + 1], sorted[..Min(100, |sorted|)]);
        return Err(tempFood.error);
      }
      made := made + [tempFood.value];
      i := i + 1;
    }
    assert sorted[..i] == sorted[..Min(100, |sorted|)];
    return Ok(made);
  }

  lemma PrefixSnoc<T>(s: seq<T>, i: nat)
    requires i < |s|
    ensures s[..i + 1] == s[..i] + [s[i]]
  {
  }

  /** One more value: the earlier error, else this value's error, else one more item. */
  lemma CreateAllSnoc(vals: seq<Record>, i: nat)
    requires i < |vals|
    ensures CreateAll(vals[..i + 1]) == match CreateAll(vals[..i])
                                        case Err(e) => Err(e)
                                        case Ok(made) =>
                                          match CreateFoodItem(Dict(vals[i]))
                                          case Err(e) => Err(e)
                                          case Ok(m) => Ok(made + [m])
  {
    assert vals[..i + 1][..i] == vals[..i];
  }

  /** An error in a prefix is the error of the whole. */
  lemma {:induction false} CreateAllStopsAtError(pre: seq<Record>, vals: seq<Record>)
    requires |pre| <= |vals| && vals[..|pre|] == pre && CreateAll(pre).Err?
    ensures CreateAll(vals) == CreateAll(pre)
    decreases |vals|
  {
    if |vals| > |pre| {
      assert vals[..|vals| - 1][..|pre|] == pre;
      CreateAllStopsAtError(pre, vals[..|vals| - 1]);
    } else {
      assert vals == pre;
    }
  }

  /** CreateAll succeeds exactly when every item does, and then gives one item per value
      in order. */
  lemma {:induction false} CreateAllPointwise(vals: seq<Record>)
    ensures CreateAll(vals).Ok? <==> forall k :: 0 <= k < |vals| ==> CreateFoodItem(Dict(vals[k])).Ok?
    ensures CreateAll(vals).Ok? ==>
              && |CreateAll(vals).value| == |vals|
              && forall k :: 0 <= k < |vals| ==> CreateAll(vals).value[k] == CreateFoodItem(Dict(vals[k])).value
    decreases |vals|
  {
    if vals != [] {
      var init := vals[..|vals| - 1];
      CreateAllPointwise(init);
      assert forall k :: 0 <= k < |init| ==> init[k] == vals[k];
    }
  }

  /** Otherwise its error is that of the first value whose item fails. */
  lemma {:induction false} CreateAllFirstError(vals: seq<Record>) returns (k: nat)
    requires CreateAll(vals).Err?
    ensures k < |vals| && CreateFoodItem(Dict(vals[k])).Err?
    ensures CreateAll(vals).error == CreateFoodItem(Dict(vals[k])).error
    ensures forall j :: 0 <= j < k ==> CreateFoodItem(Dict(vals[j])).Ok?
    decreases |vals|
  {
    var init := vals[..|vals| - 1];
    if CreateAll(init).Err? {
      k := CreateAllFirstError(init);
      assert forall j :: 0 <= j <= k ==> init[j] == vals[j];
    } else {
      CreateAllPointwise(init);
      k := |vals| - 1;
      assert forall j :: 0 <= j < k ==> init[j] == vals[j];
    }
  }

  /** The ranking keeps min(100, n) results, in ascending relScore, ties in input order:
      the k-th ranked result is the scored result at position p[k], where p lists the
      positions in (score, position) order. */
  lemma RankedOrder(results: seq<Record>, query: string, repr: Value -> string)
    ensures var ranked, scores := Ranked(results, query, repr), Scores(results, query, repr);
      var p := SortedPositions(scores, |scores|);
      && |p| == |results| && (forall k :: 0 <= k < |p| ==> p[k] < |results|)
      && |ranked| == Min(100, |results|)
      && multiset(p) == multiset(Range(|results|))
      && (forall k :: 0 <= k < |ranked| ==> ranked[k] == Scored(results, query, repr)[p[k]])
      && (forall a, b :: 0 <= a < b < |ranked| ==> scores[p[a]] <= scores[p[b]])
      && (forall a, b :: 0 <= a < b < |ranked| && scores[p[a]] == scores[p[b]] ==> p[a] < p[b])
  {
    var scored, scores := Scored(results, query, repr), Scores(results, query, repr);
    StableSortIsStable(scored, scores);
  }

  /** Each ranked result carries its relScore, and those scores ascend. */
  lemma RankedScores(results: seq<Record>, query: string, repr: Value -> string)
    ensures var ranked := Ranked(results, query, repr);
      && (forall k :: 0 <= k < |ranked| ==> "relScore" in ranked[k] && ranked[k]["relScore"].Num?)
      && (forall a, b :: 0 <= a < b < |ranked| ==> ranked[a]["relScore"].x <= ranked[b]["relScore"].x)
  {
    var ranked, scores := Ranked(results, query, repr), Scores(results, query, repr);
    var p := SortedPositions(scores, |scores|);
    RankedOrder(results, query, repr);
    forall k | 0 <= k < |ranked| ensures ranked[k]["relScore"] == Num(scores[p[k]]) {
      assert ranked[k] == Scored(results, query, repr)[p[k]];
    }
  }

  /** get_relevant returns, in ranked order, create_food_item of each of the first
      min(100, n) ranked results, or the first error among them. */
  lemma RelevantItems(results: seq<Record>, query: string, repr: Value -> string)
    ensures var ranked, r := Ranked(results, query, repr), Relevant(results, query, repr);
      && (r.Ok? <==> forall k :: 0 <= k < |ranked| ==> CreateFoodItem(Dict(ranked[k])).Ok?)
      && (r.Ok? ==> |r.value| == Min(100, |results|)
                    && forall k :: 0 <= k < |ranked| ==> r.value[k] == CreateFoodItem(Dict(ranked[k])).value)
  {
    RankedOrder(results, query, repr);
    CreateAllPointwise(Ranked(results, query, repr));
  }

  // ---------------------------------------------------------------------------------
  // searchDB, up to the request
  // ---------------------------------------------------------------------------------

  /** What searchDB does before its request: search for a (rewritten) query, refuse the
      query, or, for a key other than 0 and 1, request the empty URL. */
  datatype SearchStep = Request(query: string) | InvalidUpc | NoUrl

  /** The query prefix of searchDB(query, key). */
  function SearchQuery(query: string, key: int): SearchStep
  {
    if key == 0 then Request(ReplaceChar(Strip(query), ' ', "%20"))
    else if key == 1 then
      if IsNumeric(Strip(query)) then Request(Strip(query)) else InvalidUpc
    else NoUrl
  }

  /** The only whitespace in s is the plain space. */
  predicate OnlyPlainSpaces(s: string)
  {
    forall i :: 0 <= i < |s| ==> IsSpace(s[i]) ==> s[i] == ' '
  }

  lemma {:induction false} ReplacedSpacesLeaveNoWhitespace(s: string)
    requires OnlyPlainSpaces(s)
    ensures NoSpace(ReplaceChar(s, ' ', "%20"))
  {
    if s != [] {
      ReplacedSpacesLeaveNoWhitespace(s[1..]);
    }
  }

  /** A keyword search strips the query and leaves no space in it, so a query whose only
      whitespace is spaces reaches get_relevant, and so query.split() in computeTFIDF, as
      at most one word; a UPC search requests only all-digit queries. */
  lemma SearchQueryShape(query: string, key: int)
    ensures key == 0 ==> SearchQuery(query, key).Request? && ' ' !in SearchQuery(query, key).query
    ensures key == 0 && OnlyPlainSpaces(query) ==> |Split(SearchQuery(query, key).query)| <= 1
    ensures key == 1 ==> (SearchQuery(query, key).Request? <==> IsNumeric(Strip(query)))
    ensures key == 1 && SearchQuery(query, key).Request? ==> SearchQuery(query, key).query == Strip(query)
  {
    if key == 0 {
      var s := Strip(query);
      ReplaceCharRemoves(s, ' ', "%20");
      if OnlyPlainSpaces(query) {
        var l := LStrip(query);
        assert OnlyPlainSpaces(l) by {
          assert forall i :: 0 <= i < |l| ==> l[i] == query[|query| - |l| + i];
        }
        assert OnlyPlainSpaces(s) by {
          assert forall i :: 0 <= i < |s| ==> s[i] == l[i];
        }
        ReplacedSpacesLeaveNoWhitespace(s);
        var q := ReplaceChar(s, ' ', "%20");
        if q != [] {
          SplitOfWord(q);
        }
      }
    }
  }
}
