/** src/profile.py: a user's weight and height, and a list of favourite foods. */
module Profiles {
  import opened PyCore
  import opened FoodItems

  predicate NoDuplicates<T(==)>(s: seq<T>)
  {
    forall i, j :: 0 <= i < j < |s| ==> s[i] != s[j]
  }

  /** add_favorite on the list: append only when the food is not already there. */
  function AddedOnce(favs: seq<FoodItem>, food: FoodItem): seq<FoodItem>
  {
    if food in favs then favs else favs + [food]
  }

  /** Adding keeps the list free of duplicates and its old entries in place, grows it by at
      most one, and leaves the food in it. */
  lemma AddedOnceProperties(favs: seq<FoodItem>, food: FoodItem)
    requires NoDuplicates(favs)
    ensures var r := AddedOnce(favs, food);
      && NoDuplicates(r) && food in r
      && |favs| <= |r| <= |favs| + 1 && r[..|favs|] == favs
      && (forall x :: x in r <==> x in favs || x == food)
  {
  }

  /** create_and_manage_favorites: add_favorite on each food in order. */
  function AddedAll(favs: seq<FoodItem>, foods: seq<FoodItem>): seq<FoodItem>
    decreases |foods|
  {
    if foods == [] then favs
    else AddedOnce(AddedAll(favs, foods[..|foods| - 1]), foods[|foods| - 1])
  }

  /** After adding a list of foods, the favourites are the old ones followed by the new
      foods that were absent, without duplicates, and exactly the old ones and the added. */
  lemma {:induction false} AddedAllProperties(favs: seq<FoodItem>, foods: seq<FoodItem>)
    requires NoDuplicates(favs)
    ensures var r := AddedAll(favs, foods);
      && NoDuplicates(r)
      && |favs| <= |r| <= |favs| + |foods| && r[..|favs|] == favs
      && (forall x :: x in r <==> x in favs || x in foods)
  {
    if foods != [] {
      var init := foods[..|foods| - 1];
      AddedAllProperties(favs, init);
      AddedOnceProperties(AddedAll(favs, init), foods[|foods| - 1]);
      assert foods == init + [foods[|foods| - 1]];
      var r0 := AddedAll(favs, init);
      var r := AddedAll(favs, foods);
      assert r[..|r0|] == r0;
      assert r[..|favs|] == r0[..|favs|];
    }
  }

  /** remove_favorite on the list: the favourites whose lower-cased name differs from the
      lower-cased n, in their order. */
  function WithoutName(favs: seq<FoodItem>, n: string): (r: seq<FoodItem>)
    reads favs
    ensures |r| <= |favs|
  {
    if favs == [] then []
    else
      var rest := WithoutName(favs[1..], n);
      if Lower(favs[0].name) != Lower(n) then [favs[0]] + rest else rest
  }

  /** No kept favourite matches n, every favourite that does not match is kept, and nothing
      new appears. */
  lemma {:induction false} WithoutNameKeeps(favs: seq<FoodItem>, n: string)
    ensures forall x :: x in WithoutName(favs, n) <==> x in favs && Lower(x.name) != Lower(n)
  {
    if favs != [] {
      WithoutNameKeeps(favs[1..], n);
      assert forall x :: x in favs <==> x == favs[0] || x in favs[1..];
    }
  }

  /** s is t with some elements left out, in t's order. */
  predicate Subsequence<T(==)>(s: seq<T>, t: seq<T>)
    decreases |t|
  {
    if t == [] then s == []
    else (s != [] && s[0] == t[0] && Subsequence(s[1..], t[1..])) || Subsequence(s, t[1..])
  }

  /** The kept favourites keep their relative order. */
  lemma {:induction false} WithoutNameIsSubsequence(favs: seq<FoodItem>, n: string)
    ensures Subsequence(WithoutName(favs, n), favs)
  {
    if favs != [] {
      WithoutNameIsSubsequence(favs[1..], n);
      if Lower(favs[0].name) != Lower(n) {
        assert ([favs[0]] + WithoutName(favs[1..], n))[1..] == WithoutName(favs[1..], n);
      }
    }
  }

  /** Removing is idempotent, removing a name no favourite has changes nothing, and the
      list stays free of duplicates. */
  lemma {:induction false} WithoutNameIdempotent(favs: seq<FoodItem>, n: string)
    ensures WithoutName(WithoutName(favs, n), n) == WithoutName(favs, n)
    ensures (forall i :: 0 <= i < |favs| ==> Lower(favs[i].name) != Lower(n)) ==> WithoutName(favs, n) == favs
    ensures NoDuplicates(favs) ==> NoDuplicates(WithoutName(favs, n))
  {
    if favs != [] {
      var rest := WithoutName(favs[1..], n);
      WithoutNameIdempotent(favs[1..], n);
      if Lower(favs[0].name) != Lower(n) {
        assert ([favs[0]] + rest)[1..] == rest;
      }
      if forall i :: 0 <= i < |favs| ==> Lower(favs[i].name) != Lower(n) {
        assert forall i :: 0 <= i < |favs[1..]| ==> Lower(favs[1..][i].name) != Lower(n) by {
          forall i | 0 <= i < |favs[1..]| ensures Lower(favs[1..][i].name) != Lower(n) {
            assert favs[1..][i] == favs[i + 1];
          }
        }
        assert favs == [favs[0]] + favs[1..];
      }
      if NoDuplicates(favs) {
        assert NoDuplicates(favs[1..]) by {
          forall i, j | 0 <= i < j < |favs[1..]| ensures favs[1..][i] != favs[1..][j] {
            assert favs[1..][i] == favs[i + 1] && favs[1..][j] == favs[j + 1];
          }
        }
        WithoutNameKeeps(favs[1..], n);
        assert favs[0] !in favs[1..];
      }
    }
  }

  class Profile {
    var weight: real
    var height: real
    var favorites: seq<FoodItem>

    /** Weight and height stay positive and the favourites hold no food twice. */
    ghost predicate Valid()
      reads this
    {
      weight > 0.0 && height > 0.0 && NoDuplicates(favorites)
    }

    /** The assignments of __init__, once its checks have passed. */
    constructor (weight: real, height: real)
      requires weight > 0.0 && height > 0.0
      ensures Valid() && this.weight == weight && this.height == height && favorites == []
    {
      this.weight := weight;
      this.height := height;
      favorites := [];
    }

    /** Profile(weight, height): the weight is checked first, then the height. */
    static method New(weight: real, height: real) returns (r: Result<Profile>)
      ensures weight <= 0.0 ==> r == Err(ValueError("Weight must be positive."))
      ensures weight > 0.0 && height <= 0.0 ==> r == Err(ValueError("Height must be positive."))
      ensures weight > 0.0 && height > 0.0 ==>
                && r.Ok? && fresh(r.value) && r.value.Valid()
                && r.value.weight == weight && r.value.height == height && r.value.favorites == []
    {
      if weight <= 0.0 {
        return Err(ValueError("Weight must be positive."));
      }
      if height <= 0.0 {
        return Err(ValueError("Height must be positive."));
      }
      var p := new Profile(weight, height);
      return Ok(p);
    }

    method SetWeight(newWeight: real) returns (out: Outcome)
      requires Valid()
      modifies this
      ensures Valid() && height == old(height) && favorites == old(favorites)
      ensures newWeight <= 0.0 ==> out == Raised(ValueError("Weight must be positive.")) && weight == old(weight)
      ensures newWeight > 0.0 ==> out == Done && weight == newWeight
    {
      if newWeight <= 0.0 {
        return Raised(ValueError("Weight must be positive."));
      }
      weight := newWeight;
      return Done;
    }

    method SetHeight(newHeight: real) returns (out: Outcome)
      requires Valid()
      modifies this
      ensures Valid() && weight == old(weight) && favorites == old(favorites)
      ensures newHeight <= 0.0 ==> out == Raised(ValueError("Height must be positive.")) && height == old(height)
      ensures newHeight > 0.0 ==> out == Done && height == newHeight
    {
      if newHeight <= 0.0 {
        return Raised(ValueError("Height must be positive."));
      }
      height := newHeight;
      return Done;
    }

    /** The favorites getter: a new list holding the same foods. */
    method GetFavorites() returns (copy: array<FoodItem>)
      ensures fresh(copy) && copy[..] == favorites
    {
      var xs := favorites;
      copy := new FoodItem[|xs|](i requires 0 <= i < |xs| => xs[i]);
    }

    /** add_favorite(food): appended unless that very object is already a favourite. */
    method AddFavorite(food: FoodItem)
      requires Valid()
      modifies this
      ensures Valid() && weight == old(weight) && height == old(height)
      ensures favorites == AddedOnce(old(favorites), food)
    {
      AddedOnceProperties(favorites, food);
      if food !in favorites {
        favorites := favorites + [food];
      }
    }

    /** remove_favorite(name): the favourites are filtered by lower-cased name. */
    method RemoveFavorite(foodName: string)
      requires Valid()
      modifies this
      ensures Valid() && weight == old(weight) && height == old(height)
      ensures favorites == WithoutName(old(favorites), foodName)
    {
      WithoutNameIdempotent(favorites, foodName);
      favorites := WithoutName(favorites, foodName);
    }

    /** create_and_manage_favorites(foods): add_favorite on each food in order (the
        listing it prints afterwards is not modelled). */
    method CreateAndManageFavorites(foods: seq<FoodItem>)
      requires Valid()
      modifies this
      ensures Valid() && weight == old(weight) && height == old(height)
      ensures favorites == AddedAll(old(favorites), foods)
    {
      for i := 0 to |foods|
        invariant Valid() && weight == old(weight) && height == old(height)
        invariant favorites == AddedAll(old(favorites), foods[..i])
      {
        assert foods[..i + 1][..i] == foods[..i];
        AddFavorite(foods[i]);
      }
      assert foods[..|foods|] == foods;
    }

    function Bmi(): real
      requires Valid()
      reads this
    {
      BmiOf(weight, height)
    }
  }

  lemma MetresSquaredPositive(height: real)
    requires height > 0.0
    ensures (height / 100.0) * (height / 100.0) > 0.0
  {
  }

  /** calculate_bmi: round(weight / (height/100)**2, 2), weight in kg and height in cm. */
  function BmiOf(weight: real, height: real): real
    requires height > 0.0
  {
    MetresSquaredPositive(height);
    Round(weight / ((height / 100.0) * (height / 100.0)), 2)
  }

  /** The BMI is within 0.005 of weight / (height/100)^2. */
  lemma BodyMassIndex(weight: real, height: real)
    requires height > 0.0
    ensures (height / 100.0) * (height / 100.0) > 0.0
    ensures var exact := weight / ((height / 100.0) * (height / 100.0));
      exact - 0.005 <= BmiOf(weight, height) <= exact + 0.005
  {
    MetresSquaredPositive(height);
    RoundIsNear(weight / ((height / 100.0) * (height / 100.0)), 2);
  }

  /** 70 kg at 175 cm gives a BMI of 22.86. */
  lemma BodyMassIndexExample()
    ensures BmiOf(70.0, 175.0) == 22.86
  {
    assert 70.0 / (1.75 * 1.75) == 160.0 / 7.0;
    assert (160.0 / 7.0 * 100.0 + 0.5).Floor == 2286;
  }
}
