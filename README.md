# Smart nutrition app: a Dafny model of its food records and ranking rules

This project models the in-memory logic of a small Python nutrition app and proves
properties of that model. The app has foods with nutrient dictionaries, branded foods,
user profiles with favourites, a recommendation pass, a TF-IDF-style relevance ranking
of FoodData Central search results, the OpenFoodFacts alternative ranking, and several
record transforms: USDA parsing, per-ounce conversion and the nutrition label text.

Each module follows one source file:

| module | file | source |
|---|---|---|
| `PyCore` | pycore.dfy | the Python built-ins the code uses: exceptions as a `Result`, `round`, and the ASCII behaviour of `lower`, `strip`, `split`, `join`, `isnumeric` and `in` on strings |
| `Values` | values.dfy | decoded JSON values and `str()` of them |
| `Sorting` | sorting.dfy | `sorted(xs, key=...)`, a stable ascending sort, given as the permutation of positions it applies |
| `FloatDicts` | float_dict.dfy | the `dict[str, float]` of food_item.py and of the TF-IDF tables: insertion order, `d[k] = v` and `d.get` |
| `FoodItems` | food_item.dfy | src/food_item.py |
| `BrandedFoodItems` | branded_food_item.dfy | src/BrandedFoodItem.py |
| `Profiles` | profile.dfy | src/profile.py |
| `NutritionAnalyzer` | nutrition_analyzer.dfy | src/nutrition_analyzer.py |
| `FoodCentral` | foodcentral_manager.dfy | src/foodcentral_manager.py |
| `Library` | library.dfy | src/library.py |

Objects whose fields the source updates (`FoodItem`, `BrandedFoodItem`, `Profile`) are
classes. Their setters are methods with `modifies` clauses, and each method's
postcondition states its whole new state. Loops in the source are `for` or `while`
loops, proved equal to a specification function. Functions that only compute become
Dafny functions, and lemmas state what they mean. Python exceptions are values:
`Result.Err` carries a `ValueError`, `KeyError`, `TypeError` or `ZeroDivisionError`.
Setters that return nothing report `Outcome.Done` or `Outcome.Raised`.

Nutrient values are `real`. `round(x, d)` is one function, `Floor(x * 10^d + 1/2) / 10^d`.
The properties proved about it (within half a unit, both ends inclusive; monotone;
exact on d-decimal numbers) hold whichever way a half goes. Python's float `str()` and `format`
rendering is a function parameter (`repr`, `num`).

Where the code and the written description of the system disagree, the model follows
the code:
- tokenize leaves punctuation in place, because the stop-symbol loop drops the result of `str.replace`;
- the term-frequency table stores occurrences minus one;
- the score divides by the character length of the tokenized text, not by a token count;
- a keyword query reaches the scorer with its spaces replaced by `%20`, so `query.split()` sees at most one word;
- an empty nutrient dictionary has the empty summary, not "no nutrient data";
- the BrandedFoodItem constructor accepts a brand, UPC or ingredient that trimming leaves empty, and only the setters reject one;
- total_calories reads only the key `carbs`, never `carbohydrates`;
- in parse_usda_nutrients a later matching entry overwrites an earlier one, so a "Fatty acids" entry after "Total lipid (fat)" replaces the fat value.

## Model

| member | source | states |
|---|---|---|
| FoodItems.FoodItem.New | src/food_item.py:12-26 | An empty name raises ValueError("Food name must be a non-empty string."). Otherwise the name and nutrients are stored as given, and nutrient values are not checked. |
| FoodItems.FoodItem.constructor | src/food_item.py:25-26 | The name and nutrients are stored unchanged, and the name is non-empty. |
| FoodItems.FoodItem.SetName | src/food_item.py:34-38 | An empty name raises ValueError("Name cannot be empty.") and keeps the old name. Otherwise the name is replaced. The nutrients never change. |
| FoodItems.FoodItem.SetNutrients | src/food_item.py:45-49 | The new dictionary replaces the old one, and the name is unchanged. |
| FoodItems.CaloriesFromMacros | src/food_item.py:59-62 | About FoodItems.Calories, which FoodItem.TotalCalories returns. The calories are within 0.005 of fat*9 + protein*4 + carbs*4, with absent keys counting as 0. They depend only on those three entries and never decrease when one of them grows. |
| FoodItems.CaloriesExample | src/food_item.py:59-62 | Fat 10, protein 5 and carbs 20 give 190.0. |
| FoodItems.CaloriesOfOneGramEach | src/food_item.py:59-62 | One gram of each macro gives 17.0. |
| FoodItems.CarbohydratesKeyIgnored | src/food_item.py:61 | A `carbohydrates` entry contributes nothing, because only `carbs` is read. |
| FoodItems.SummaryEntries | src/food_item.py:66 | There is one `"k: vg"` string per entry, in dictionary order. |
| FoodItems.SummaryShape | src/food_item.py:64-66 | About FoodItems.Summary, which FoodItem.NutrientSummary returns. The summary is empty exactly when the dictionary is empty. Otherwise it starts with the first entry's text and ends with the last entry's text. |
| FoodItems.SummaryOfNewKey | src/food_item.py:64-66 | Adding a new key appends ", " and that entry's text to the summary. |
| FloatDicts.AssignExisting | src/food_item.py:74 | Assigning to an existing key keeps the key sequence, sets that key and leaves every other value unchanged. |
| FoodItems.FoodItem.UpdateNutrient | src/food_item.py:68-74 | A missing key raises KeyError, checked before the value. A negative value raises ValueError. Either way nothing changes. Otherwise exactly that entry takes the new value and the keys stay the same. |
| BrandedFoodItems.StripAll | src/BrandedFoodItem.py:17 | Each element is trimmed, with the same length and order. |
| BrandedFoodItems.StripAllTrims | src/BrandedFoodItem.py:17 | Every trimmed element has no leading or trailing whitespace, and trimming again changes nothing. |
| BrandedFoodItems.BrandedFoodItem.constructor | src/BrandedFoodItem.py:14-18 | Stores the trimmed brand and UPC, the element-wise trimmed ingredients and the food class "Branded". |
| BrandedFoodItems.BrandedFoodItem.New | src/BrandedFoodItem.py:6-18 | Fails exactly when FoodItem rejects the name. Otherwise it stores the trimmed brand, UPC and ingredients, and never rejects them even when trimming leaves them empty. |
| BrandedFoodItems.BrandedFoodItem.SetBrandName | src/BrandedFoodItem.py:28-33 | Stores the trimmed brand. If the trimmed value is empty it raises ValueError and keeps the old brand. The other fields are unchanged. |
| BrandedFoodItems.BrandedFoodItem.SetUpc | src/BrandedFoodItem.py:49-54 | Stores the trimmed UPC. If the trimmed value is empty it raises ValueError and keeps the old UPC. |
| BrandedFoodItems.BrandedFoodItem.SetIngredients | src/BrandedFoodItem.py:39-43 | Stores the element-wise trimmed list, with the same length and order. |
| BrandedFoodItems.BrandedFoodItem.GetIngredients | src/BrandedFoodItem.py:35-37 | Returns a new array holding the stored ingredients. |
| BrandedFoodItems.DescribeParts | src/BrandedFoodItem.py:56-57 | About BrandedFoodItems.DescribeText, which BrandedFoodItem.Describe returns. describe() starts with the brand and a space, and ends with " (UPC: upc)". For a one-word brand, its first word is the brand. |
| Profiles.Profile.constructor | src/profile.py:31-33 | Stores the weight and height and starts with no favourites. |
| Profiles.Profile.New | src/profile.py:15-33 | A weight ≤ 0 raises ValueError first. Then a height ≤ 0 raises ValueError. Otherwise the profile holds both values and no favourites. |
| Profiles.Profile.SetWeight | src/profile.py:40-44 | A weight ≤ 0 raises ValueError and keeps the old value. Otherwise the new weight is stored. Validity (positive values, no duplicates) is preserved. |
| Profiles.Profile.SetHeight | src/profile.py:50-54 | Same as SetWeight, for the height. |
| Profiles.Profile.GetFavorites | src/profile.py:56-59 | Returns a new array with the same foods. |
| Profiles.AddedOnceProperties | src/profile.py:66-67 | Adding keeps the list free of duplicates and its old entries in place. The list grows by at most one and then contains the food. |
| Profiles.Profile.AddFavorite | src/profile.py:62-67 | The food is appended unless it is already a favourite. The invariant is kept. |
| Profiles.WithoutNameKeeps | src/profile.py:71 | A favourite is kept exactly when its lower-cased name differs from the lower-cased argument. |
| Profiles.WithoutNameIsSubsequence | src/profile.py:71 | The kept favourites keep their relative order. |
| Profiles.WithoutNameIdempotent | src/profile.py:71 | Removing twice equals removing once. Removing an absent name changes nothing. Duplicate-freedom is kept. |
| Profiles.Profile.RemoveFavorite | src/profile.py:69-71 | The favourites become the filtered list, and weight and height are unchanged. |
| Profiles.AddedAllProperties | src/profile.py:86-87 | After a sequence of adds the list has no duplicates, keeps the old favourites as a prefix, and holds exactly the old and the added foods. |
| Profiles.Profile.CreateAndManageFavorites | src/profile.py:79-88 | Equal to calling add_favorite on each food in order. |
| Profiles.BodyMassIndex | src/profile.py:90-93 | About Profiles.BmiOf, which Profile.Bmi returns. The BMI is within 0.005 of weight / (height/100)^2. |
| Profiles.BodyMassIndexExample | src/profile.py:90-93 | 70 kg at 175 cm gives 22.86. |
| NutritionAnalyzer.Rule | src/nutrition_analyzer.py:60 | The rule line is 50 characters. |
| NutritionAnalyzer.ShownLinesFail | src/nutrition_analyzer.py:64-75 | The nutrient lines fail exactly when a shown value is a list or a dict, and then with TypeError. |
| NutritionAnalyzer.ShownLinesFollowRows | src/nutrition_analyzer.py:64-75 | There is one line per non-None nutrient, in the fixed order, each starting with its label padded to 20 columns. |
| NutritionAnalyzer.FormatNutritionFactsShape | src/nutrition_analyzer.py:52-80 | About NutritionAnalyzer.FormatNutritionFacts. None or {} gives the no-data text. Otherwise the result is the label or a TypeError. The label has 5 + k lines: it starts and ends with the rule, its third line is the rule, the k nutrient lines follow in order, and the basis line defaults to "per 100 g". |
| NutritionAnalyzer.GetHealthierAlternatives | src/nutrition_analyzer.py:117-144 | The loop returns the recommendation of the whole pass, or ZeroDivisionError at the first food with zero calories. |
| NutritionAnalyzer.StepFields | src/nutrition_analyzer.py:129-142 | One iteration updates the three criteria independently, each with its own test. |
| NutritionAnalyzer.RecommendFails | src/nutrition_analyzer.py:129-142 | About NutritionAnalyzer.Recommend, the result of the loop. The pass fails exactly when some food has zero calories, and then with ZeroDivisionError. |
| NutritionAnalyzer.ScanPicksMembers | src/nutrition_analyzer.py:128-144 | An empty list gives three Nones. A non-empty list always sets calorie and fat. Every set entry is one of the input foods. |
| NutritionAnalyzer.CalorieIsFirstLeast | src/nutrition_analyzer.py:123-137 | Provided no calorie value equals the sentinel -1, the calorie entry is the first food with the least calories. |
| NutritionAnalyzer.FatIsFirstLeast | src/nutrition_analyzer.py:125-142 | Provided no ratio equals -1, the fat entry is the first food with the least fat/calorie ratio. |
| NutritionAnalyzer.ProteinIsFirstGreatest | src/nutrition_analyzer.py:124-133 | The protein entry is None exactly when no protein/calorie ratio is positive. Otherwise it is the first food with the greatest ratio. |
| NutritionAnalyzer.CalorieSentinelQuirk | src/nutrition_analyzer.py:123-135 | After a food with -1 calories, min_calories still equals the sentinel, so the next food replaces it. |
| NutritionAnalyzer.RawSharesSum | src/nutrition_analyzer.py:343 | Before rounding, the three percentages sum to 100. |
| NutritionAnalyzer.ShareBounds | src/nutrition_analyzer.py:343 | A non-negative part of a positive total is between 0 and 100 percent, also after rounding. |
| NutritionAnalyzer.MacroBreakdownShares | src/nutrition_analyzer.py:331-343 | About NutritionAnalyzer.MacroBreakdown. A zero total gives three zeros. Otherwise each share is within 0.005 of its exact percentage and the shares sum to 100 within 0.015. For non-negative macros each share is in [0, 100]. |
| NutritionAnalyzer.Classify | src/nutrition_analyzer.py:255-274 | An entry writes at most one key, and only one of the seven nutrient keys. |
| NutritionAnalyzer.ParseUsdaNutrients | src/nutrition_analyzer.py:238-276 | The loop builds the dict the entries give, read in order. parse_usda_nutrients in src/library.py (lines 147-173) is the same code, and this method models both. |
| NutritionAnalyzer.LastMatch | src/nutrition_analyzer.py:250-274 | Finds the last entry the if/elif chain sends to a key, or shows that none does. |
| NutritionAnalyzer.ParsedKeysAndNames | src/nutrition_analyzer.py:243-248 | The result has exactly the nine keys. food_name and brand_name are the record's values or "Unknown" and "Generic/USDA". |
| NutritionAnalyzer.ParsedNutrient | src/nutrition_analyzer.py:250-274 | Each nutrient key holds the value of the last entry that writes it, or None when no entry does. |
| FoodCentral.Tokenize | src/foodcentral_manager.py:165-179 | Returns the lower-cased whitespace tokens without "the", "in" and "a", each followed by one space. The stop-symbol loop has no effect. |
| FoodCentral.SpaceTerminatedSnoc | src/foodcentral_manager.py:176-177 | Each loop step appends the token and one space. |
| FoodCentral.FilteredMembers | src/foodcentral_manager.py:173 | Every kept token is an input token and is not a stop word. |
| FoodCentral.FilteredIdempotent | src/foodcentral_manager.py:173 | Filtering twice is filtering once. |
| FoodCentral.TokenTextSplits | src/foodcentral_manager.py:170-179 | Splitting the output gives exactly the filtered token list. |
| FoodCentral.TokenTextIdempotent | src/foodcentral_manager.py:165-179 | Tokenizing a tokenized text changes nothing. |
| FoodCentral.TokenizeKeepsPunctuation | src/foodcentral_manager.py:168-170 | A single non-stop word comes back lower-cased with its punctuation, followed by a space. |
| FoodCentral.TokenizeKeepsComma | src/foodcentral_manager.py:168-170 | "Milk," tokenizes to "milk, ". |
| FoodCentral.TfCounts | src/foodcentral_manager.py:189-194 | tfDict holds exactly the document's words, each mapped to its occurrence count minus one. |
| FoodCentral.ComputeTfidf | src/foodcentral_manager.py:181-204 | The three loops compute the score of the text against the query. |
| FoodCentral.TfidfsEntries | src/foodcentral_manager.py:196-199 | Each tfidfs entry is a query word found in tfDict, valued tfDict[w] / len, and every such word has an entry. |
| FoodCentral.TfidfsEntriesFromQuery | src/foodcentral_manager.py:196-199 | Each tfidfs entry is a query word found in tfDict, valued tfDict[w] / len. |
| FoodCentral.TfidfsCoversQuery | src/foodcentral_manager.py:196-199 | Every query word found in tfDict has an entry. |
| FoodCentral.TfidfsSum | src/foodcentral_manager.py:196-203 | With non-negative counts and a positive length, the sum is ≥ 0, and it is positive exactly when some query word has a positive count. |
| FoodCentral.SumOfNonNegative | src/foodcentral_manager.py:201-203 | A sum of non-negative values is ≥ 0, and it is positive exactly when some value is. |
| FoodCentral.TfidfsEmpty | src/foodcentral_manager.py:196-199 | An empty tfDict gives no entries. |
| FoodCentral.TfidfsOfEntries | src/foodcentral_manager.py:184-199 | Against a document, the entries are the distinct query words among the document tokens, each valued (occurrences - 1) / character length of the tokenized text. |
| FoodCentral.TfidfsOfValues | src/foodcentral_manager.py:184-199 | The value half of TfidfsOfEntries. |
| FoodCentral.TfidfsOfCovers | src/foodcentral_manager.py:184-199 | The coverage half of TfidfsOfEntries. |
| FoodCentral.TfidfScoreSign | src/foodcentral_manager.py:181-204 | About FoodCentral.TfidfScore, which ComputeTfidf returns. The score is ≥ 0, and it is positive exactly when some query word occurs at least twice in the tokenized document. |
| FoodCentral.Lookup | src/foodcentral_manager.py:52-57 | Successful lookups give one value per key. |
| FoodCentral.LookupMeaning | src/foodcentral_manager.py:52-57 | The lookups succeed exactly when every key is present, and then give the values in order. Otherwise they raise KeyError of the first missing key. |
| FoodCentral.CreateFoodItemDispatch | src/foodcentral_manager.py:43-57 | About FoodCentral.CreateFoodItem. A non-dict gives None. A missing dataType raises KeyError("dataType"). Otherwise a KeyError is raised exactly when a key the selected call reads is absent. A Foundation record with its keys gives that constructor with the dict's values. |
| FoodCentral.GenericConstruction | src/foodcentral_manager.py:56-57 | Any other dataType with description and foodNutrients becomes a FoodItem exactly when the description is a non-empty string and foodNutrients a dict (the checks of src/food_item.py:20-23). Otherwise the constructor's ValueError is raised, about the name first. So a USDA foodNutrients list always raises. |
| FoodCentral.BrandedConstruction | src/foodcentral_manager.py:53-55 | The Branded call passes brandOwner as the nutrients and foodNutrients as the brand. It succeeds exactly when the description is a non-empty string, brandOwner a dict, foodNutrients and gtinUpc strings, and the ingredients strip item by item (src/BrandedFoodItem.py:14-18). A bad name or brandOwner raises the constructor's ValueError, and the later checks raise AttributeError or TypeError. So a string brandOwner always raises. |
| FoodCentral.Scores | src/foodcentral_manager.py:126-137 | Each result's score is the TF-IDF of its document string: description, ingredients, brandedFoodCategory and brandOwner, when present, joined without separators. |
| FoodCentral.Scored | src/foodcentral_manager.py:137 | Each result gets relScore set to its score, and every other field is unchanged. |
| FoodCentral.ScoreResults | src/foodcentral_manager.py:122-139 | The scoring loop produces the scored results and the sort keys. |
| FoodCentral.GetRelevant | src/foodcentral_manager.py:117-158 | Returns the results with relScore written, and the ranked items. |
| FoodCentral.CreateRanked | src/foodcentral_manager.py:146-156 | The second loop is create_food_item on the first min(100, n) sorted results, stopping at the first error. |
| FoodCentral.CreateAllPointwise | src/foodcentral_manager.py:148-156 | Creating all succeeds exactly when each creation succeeds, and gives each item in order. |
| FoodCentral.CreateAllFirstError | src/foodcentral_manager.py:148-156 | On failure, the error is the one from the first failing result. |
| FoodCentral.RankedOrder | src/foodcentral_manager.py:142-155 | The ranking keeps min(100, n) results. The k-th is the scored result at position p[k], where p is a permutation of the positions. Scores ascend, and equal scores keep input order. |
| FoodCentral.RankedScores | src/foodcentral_manager.py:137-142 | Each ranked result carries a numeric relScore, and those values ascend. |
| FoodCentral.RelevantItems | src/foodcentral_manager.py:142-158 | get_relevant succeeds exactly when create_food_item raises for none of the ranked results: no missing key, and no FoodItem or BrandedFoodItem argument check failing. It then returns min(100, n) items, create_food_item of each ranked result in order. |
| FoodCentral.ReplacedSpacesLeaveNoWhitespace | src/foodcentral_manager.py:84 | Replacing the spaces of a text whose only whitespace is spaces leaves no whitespace. |
| FoodCentral.SearchQueryShape | src/foodcentral_manager.py:83-92 | About FoodCentral.SearchQuery. Mode 0 always requests, with no space left in the query. When the query's only whitespace is plain spaces, that is at most one word. Mode 1 requests exactly when the stripped query is numeric, and requests it stripped. |
| Sorting.StableSortPermutes | src/foodcentral_manager.py:142 | sorted() returns a rearrangement of its input. |
| Sorting.StableSortIsStable | src/foodcentral_manager.py:142 | The k-th sorted item is the input at position p[k]. p lists every position once, keys ascend, and equal keys keep their input order. |
| Library.ConvertToImperialUnits | src/library.py:22-37 | The copy-and-update loop computes the converted dict, or the TypeError of the first value that cannot be scaled. |
| Library.ConvertKeysStopsAtError | src/library.py:27-35 | Once a step raises, the later steps do not run. |
| Library.ConvertKeysEntries | src/library.py:27-35 | Distinct steps scale each listed key to its number of decimals and leave every other entry alone. They raise TypeError exactly when a listed key holds a string, a list or a dict. |
| Library.ImperialEntries | src/library.py:22-37 | About Library.Imperial, which ConvertToImperialUnits returns. A non-empty dict keeps its keys and gains unit_basis = "per ounce (~28 g)". The macros become round(v*0.283495, 2), and sodium and calories become round(v*0.283495, 1). None values and all other keys are unchanged. |
| Library.ImperialOfNothing | src/library.py:24-25 | None and {} both convert to {}. |
| Library.FormatAgreesWithAnalyzer | src/library.py:40-66 | About Library.FormatNutritionFacts. The no-data text is "⚠️ No nutrition data available.". For every non-empty dict the label, or the TypeError, is the analyzer's. |
| Library.CollectCandidates | src/library.py:99-112 | The loop builds the candidate list, or the exception that ends the search. |
| Library.CandidatesStopAtError | src/library.py:99-112 | After an exception, later products are not looked at. |
| Library.CandidateOfMeaning | src/library.py:101-112 | A product becomes a candidate exactly when its nutriments are a dict with the three keys. The candidate copies those values and takes the name, brand and url with their defaults. The search fails on nutriments that are None or a number, and on a string or list that passes the membership test. |
| Library.CandidatesAppend | src/library.py:99-112 | The candidates of xs + ys are those of xs followed by those of ys, so candidates keep input order. |
| Library.RankKeys | src/library.py:118 | One key per candidate: calories + 2*sugars + 2*fat. |
| Library.GetHealthierAlternatives | src/library.py:95-123 | Filter, sort by the key, slice to max_results. Every exception gives []. |
| Library.DefaultKeepsAtMostThree | src/library.py:78-119 | With the default max_results of 3, at most three alternatives come back. |
| Library.SliceLength | src/library.py:119 | s[:m] keeps min(m, n) items, or max(0, n + m) for a negative m. |
| Library.RankedCandidates | src/library.py:118-119 | The k-th result is the candidate at position p[k]. Keys ascend, and equal keys keep the candidates' order. |
| Library.HealthierAlternativesRanked | src/library.py:114-123 | About Library.HealthierAlternatives, which GetHealthierAlternatives returns. Without candidates, or with one that cannot be ranked, the result is []. Otherwise it is the sorted slice, of length min(max_results, n) or, for a negative max_results, max(0, n + max_results). |
| Library.SodiumAsWrittenFailsWithSodium | src/library.py:210 | About Library.SodiumAsWritten, the entry as written. As written, nutriments with sodium_100g present and salt_100g null still raise. |
| Library.SodiumCases | src/library.py:210 | About Library.Sodium, the corrected entry. The intended sodium is sodium_100g when present, else salt_100g * 400, else 0. It raises exactly when sodium_100g is absent and salt_100g is null or a dict. |
| Library.SodiumAgreesWithAsWritten | src/library.py:210 | The two agree whenever the as-written one succeeds, and whenever sodium_100g is absent. |
| Library.SearchKeywordArguments | src/library.py:219-220 | About Library.SearchKeyword. Anything but two strings raises ValueError("Both text and keyword must be strings."). An empty keyword matches every text. |
| Library.SearchKeywordIgnoresCase | src/library.py:222 | Lower-casing either argument first changes nothing. |
| Library.SearchKeywordFinds | src/library.py:222 | The keyword is found exactly when, ignoring case, it occurs at some position of the text. |

## Left out

- Network access: every `requests.get` (the FCManager key setter, get_item, the fetch part of searchDB, db_manager.py, and the fetch parts of library.py). The model starts from the decoded payload: `results` for get_relevant, `products` for the OpenFoodFacts alternatives, the nutriments dict for the sodium entry.
- searchDB after the query is prepared (the request and the totalHits dispatch): it needs the network.
- Barcode decoding (Colab, PIL, pyzbar), plotting (compare_food_macros), the text menus, run_app, prompt_key and the display_* functions: these are I/O and foreign libraries.
- The commented-out code in nutrition_analyzer.py (Nutri-Score letter, imperial conversion, compare_labels): it is not live code.
- Classes and helpers that only the tests name (PackagedFood, Recipe, NutritionItem, FoundationFoodItem, the sort_* and *_per_calorie helpers, find_alternatives): no shown file defines them.
- FoodCentral.CreateFoodItem: models which constructor create_food_item calls, with which values, and the argument checks of FoodItem and BrandedFoodItem that can raise, but not the object they build. FoundationFoodItem is defined nowhere (and foodcentral_manager.py imports it and BrandedFoodItem from food_item.py, which defines neither), so a Foundation record is taken to succeed once its keys are present. The classes are taken from food_item.py and BrandedFoodItem.py.
- FoodCentral.BrandedConstruction: a JSON integer is a float in the model, so an error message that names the type says 'float' where Python would say 'int'.
- NutritionAnalyzer.MacroBreakdownShares: create_macro_breakdown reads self._nutrients, which NutritionAnalyzer.__init__ never sets. The model takes the nutrient dictionary as a parameter.
- NutritionAnalyzer.GetHealthierAlternatives: each food is reduced to its protein, fat and calorie attributes, which the source reads but FoodItem does not define.
- Python isinstance checks that the Dafny types make vacuous: the FoodItem name and nutrients checks, the nutrients setter, the ingredients setter's list check, and add_favorite's FoodItem check. For the same reason the ingredients setter's `str(i)` is the identity on strings.
- Aliasing of caller-owned dicts: FoodItem keeps the caller's dict, and get_relevant writes relScore into the caller's result dicts. Dicts are values in the model; get_relevant returns the written dicts instead (`scored`).
- Float behaviour: binary representation, half-to-even rounding, and Python's float formatting. The last is the `repr`/`num` parameter.
- Unicode: lower, strip, split and isnumeric follow their ASCII behaviour.
- JSON booleans and integers: Values has one number kind. An int is a real, and True/False are left out, along with Python's bool arithmetic in the conversion and ranking.
- Library.RankKeys: a sort key is computed only from three numbers. In Python three strings concatenate into a string key, and such keys would sort. The model treats every non-numeric key as raising, which returns [].
- NutritionAnalyzer.ParseUsdaNutrients: a non-string nutrientName or unitName (where `.lower()` would raise AttributeError) is not representable. NutrientEntry holds them as optional strings.
- __str__ and __repr__ of every class, and the printing in manage_favorites.
- Profiles.BodyMassIndex: states closeness to the exact formula, not monotonicity in weight or height. Monotonicity follows in exact arithmetic, but it is not proved.

## Findings

| source | as written | input that shows it | evidently intended | confidence | as-written member | corrected member |
|---|---|---|---|---|---|---|
| src/library.py:210 | The fallback argument `n.get("salt_100g", 0) * 400 if "salt_100g" in n else 0` is computed before `n.get("sodium_100g", ...)` looks up sodium. So a salt value that cannot be multiplied raises even when sodium_100g is present, and get_openfoodfacts_food returns {}. | nutriments {"sodium_100g": 0.4, "salt_100g": null} | Use sodium_100g whenever present, and compute the salt fallback only when it is needed. | medium; not executed | Library.SodiumAsWritten, Library.SodiumAsWrittenFailsWithSodium | Library.Sodium, Library.SodiumCases |
