/**
 * The meal-plan engine of app/recommender.py: catalog cleaning, the daily
 * needs calculator, the ranker, the per-meal candidate pools and the 30-day
 * plan generator. Arithmetic is over `real`; Python's `round` is modelled as
 * round-half-to-even; the random draws come from an index oracle.
 */
module Recommender {
  import opened Wrappers
  import opened PyText
  import opened Sorting

  // ---------------------------------------------------------------------
  // Catalog cleaning
  // ---------------------------------------------------------------------

  /**
   * One row of the catalog as read, its numeric cells already coerced to
   * numbers: None stands for a blank or unparseable cell.
   */
  datatype CatalogRow = CatalogRow(
    name: string,
    category: Option<string>,
    calories: Option<real>,
    protein: Option<real>,
    carbs: Option<real>,
    fat: Option<real>,
    glycemicIndex: Option<real>,
    benefits: Option<string>)

  /** A row of the usable catalog: the row itself and its normalised meal category. */
  datatype Food = Food(row: CatalogRow, category: Option<string>)

  /** A table: its rows and whether the two optional columns exist at all. */
  datatype Catalog<R> = Catalog(rows: seq<R>, hasGlycemicIndex: bool, hasBenefits: bool)

  /**
   * The meal category of a row: absent stays absent, anything else is
   * stripped and title-cased, then the plurals "Snacks" and "Beverages" are
   * mapped to their singular; every other value passes through.
   */
  function NormalizeCategory(x: Option<string>): (r: Option<string>)
    ensures r.None? <==> x.None?
  {
    match x
    case None => None
    case Some(s) =>
      var t := Title(Strip(s));
      if t == "Snacks" then Some("Snack")
      else if t == "Beverages" then Some("Beverage")
      else Some(t)
  }

  lemma SnackIsNormal()
    ensures Title("Snack") == "Snack" && Strip("Snack") == "Snack"
  {
    TitleOfCapitalized("Snack");
  }

  lemma BeverageIsNormal()
    ensures Title("Beverage") == "Beverage" && Strip("Beverage") == "Beverage"
  {
    TitleOfCapitalized("Beverage");
  }

  /** The category a row ends up with: stripped, title-cased and never one of the two plurals. */
  ghost predicate NormalCategory(v: string) {
    v != "Snacks" && v != "Beverages" && Title(v) == v && Strip(v) == v
  }

  lemma SnacksIsNormalized(x: Option<string>)
    requires x.Some? && Title(Strip(x.value)) == "Snacks"
    ensures NormalizeCategory(x) == Some("Snack") && NormalCategory("Snack")
  {
    SnackIsNormal();
  }

  lemma BeveragesIsNormalized(x: Option<string>)
    requires x.Some? && Title(Strip(x.value)) == "Beverages"
    ensures NormalizeCategory(x) == Some("Beverage") && NormalCategory("Beverage")
  {
    BeverageIsNormal();
  }

  lemma OtherIsNormalized(x: Option<string>)
    requires x.Some?
    requires Title(Strip(x.value)) != "Snacks" && Title(Strip(x.value)) != "Beverages"
    ensures NormalizeCategory(x) == Some(Title(Strip(x.value))) && NormalCategory(Title(Strip(x.value)))
  {
    StrippedTitleIsStable(x.value);
  }

  /** A normalised category is stripped, title-cased and never one of the two plurals. */
  lemma NormalizedCategoryIsNormal(x: Option<string>)
    requires x.Some?
    ensures NormalCategory(NormalizeCategory(x).value)
  {
    var t := Title(Strip(x.value));
    if t == "Snacks" {
      SnacksIsNormalized(x);
    } else if t == "Beverages" {
      BeveragesIsNormalized(x);
    } else {
      OtherIsNormalized(x);
    }
  }

  /** Normalising an already normalised category changes nothing. */
  lemma NormalizeCategoryIdempotent(x: Option<string>)
    ensures NormalizeCategory(NormalizeCategory(x)) == NormalizeCategory(x)
  {
    if x.Some? {
      NormalizedCategoryIsNormal(x);
    }
  }

  lemma StripSnacks()
    ensures Strip("  snacks ") == "snacks"
  {
    assert TrimLeft("snacks ") == "snacks ";
    assert TrimLeft(" snacks ") == "snacks " by { assert " snacks "[1..] == "snacks "; }
    assert TrimLeft("  snacks ") == "snacks " by { assert "  snacks "[1..] == " snacks "; }
    assert TrimRight("snacks") == "snacks";
    assert TrimRight("snacks ") == "snacks" by { assert "snacks "[..6] == "snacks"; }
  }

  lemma TitleSnacks()
    ensures Title("snacks") == "Snacks"
  {
    assert UpperChar('s') == 'S' && "snacks"[1..] == "nacks";
  }

  /** Surrounding blanks and letter case do not matter; the plural maps to the singular. */
  lemma NormalizeSnacksExample()
    ensures NormalizeCategory(Some("  snacks ")) == Some("Snack")
  {
    StripSnacks();
    TitleSnacks();
  }

  lemma TitleBeverages()
    ensures Title("BEVERAGES") == "Beverages"
  {
    assert LowerChar('E') == 'e' && LowerChar('V') == 'v' && LowerChar('R') == 'r';
    assert LowerChar('A') == 'a' && LowerChar('G') == 'g' && LowerChar('S') == 's';
    assert "BEVERAGES"[1..] == "EVERAGES";
  }

  lemma NormalizeBeveragesExample()
    ensures NormalizeCategory(Some("BEVERAGES")) == Some("Beverage")
  {
    StripUnchanged("BEVERAGES");
    TitleBeverages();
  }

  lemma TitleHighTea()
    ensures Title("high tea") == "High Tea"
  {
    assert UpperChar('h') == 'H' && UpperChar('t') == 'T';
  }

  /** An unknown category passes through, title-cased word by word. */
  lemma NormalizeUnknownExample()
    ensures NormalizeCategory(Some("high tea")) == Some("High Tea")
  {
    StripUnchanged("high tea");
    TitleHighTea();
  }

  /** The four nutrition values a usable row must have. */
  predicate HasNutrition(r: CatalogRow) {
    r.calories.Some? && r.protein.Some? && r.carbs.Some? && r.fat.Some?
  }

  function Prepare(r: CatalogRow): Food {
    Food(r, NormalizeCategory(r.category))
  }

  /** The rows that keep all four nutrition values, in order, with their normalised category. */
  function PrepareRows(rows: seq<CatalogRow>): (usable: seq<Food>)
    ensures |usable| <= |rows|
    ensures forall f :: f in usable ==> HasNutrition(f.row) && f.row in rows && f == Prepare(f.row)
  {
    if rows == [] then []
    else
      var rest := PrepareRows(rows[1..]);
      if HasNutrition(rows[0]) then [Prepare(rows[0])] + rest else rest
  }

  /** A row is kept exactly when its four nutrition values are present; its glycemic index plays no part. */
  lemma {:induction false} PrepareRowsKeeps(rows: seq<CatalogRow>, r: CatalogRow)
    requires r in rows
    ensures Prepare(r) in PrepareRows(rows) <==> HasNutrition(r)
  {
    if rows[0] != r {
      PrepareRowsKeeps(rows[1..], r);
    }
  }

  /** A complete row is kept as often as it occurs in the catalog; nothing else is kept. */
  lemma {:induction false} PrepareRowsCounts(rows: seq<CatalogRow>)
    ensures forall f ::
      multiset(PrepareRows(rows))[f] == if HasNutrition(f.row) && f == Prepare(f.row) then multiset(rows)[f.row] else 0
  {
    if rows != [] {
      PrepareRowsCounts(rows[1..]);
      assert rows == [rows[0]] + rows[1..];
      assert multiset(rows) == multiset{rows[0]} + multiset(rows[1..]);
    }
  }

  /** The usable catalog: same optional columns, only complete rows. */
  function PrepareDataset(raw: Catalog<CatalogRow>): (c: Catalog<Food>)
    ensures c.hasGlycemicIndex == raw.hasGlycemicIndex && c.hasBenefits == raw.hasBenefits
    ensures forall f :: f in c.rows ==> HasNutrition(f.row) && f.row in raw.rows
  {
    Catalog(PrepareRows(raw.rows), raw.hasGlycemicIndex, raw.hasBenefits)
  }

  // ---------------------------------------------------------------------
  // Daily needs
  // ---------------------------------------------------------------------

  /** Daily targets: calories, and protein, carbs and fat in grams. */
  datatype Needs = Needs(calories: int, protein: int, carbs: int, fat: int)

  /** Python's `round(x)`: the nearest integer, ties going to the even one. */
  function RoundHalfEven(x: real): (n: int)
    ensures -0.5 <= n as real - x <= 0.5
    ensures (n as real - x == 0.5 || x - n as real == 0.5) ==> n % 2 == 0
  {
    var f := x.Floor;
    var d := x - f as real;
    if d < 0.5 then f
    else if d > 0.5 then f + 1
    else if f % 2 == 0 then f
    else f + 1
  }

  /** Python's `round(x, 1)`: the nearest multiple of one tenth. */
  function Round1(x: real): (r: real)
    ensures -0.05 <= r - x <= 0.05
  {
    RoundHalfEven(x * 10.0) as real / 10.0
  }

  /** Basal metabolic rate by the Mifflin-St Jeor equation; only "male" in any letter case selects the male form. */
  function Bmr(age: int, weight: real, height: real, gender: string): real {
    if Lower(gender) == "male" then 10.0 * weight + 6.25 * height - 5.0 * age as real + 5.0
    else 10.0 * weight + 6.25 * height - 5.0 * age as real - 161.0
  }

  /** For the same body, the male rate exceeds every other by 166 kcal. */
  lemma MaleBmrExceedsOther(age: int, weight: real, height: real, male: string, other: string)
    requires Lower(male) == "male" && Lower(other) != "male"
    ensures Bmr(age, weight, height, male) - Bmr(age, weight, height, other) == 166.0
  {
  }

  /** The activity multiplier, looked up in any letter case; unknown levels count as sedentary. */
  function ActivityFactor(level: string): (f: real)
    ensures 1.2 <= f <= 1.9
    ensures Lower(level) !in {"light", "moderate", "active", "very_active"} ==> f == 1.2
  {
    var l := Lower(level);
    if l == "sedentary" then 1.2
    else if l == "light" then 1.375
    else if l == "moderate" then 1.55
    else if l == "active" then 1.725
    else if l == "very_active" then 1.9
    else 1.2
  }

  /** Calories before rounding and before the floor. */
  function DailyCalories(age: int, weight: real, height: real, gender: string, activity: string, goal: string): real {
    var c := Bmr(age, weight, height, gender) * ActivityFactor(activity);
    if goal == "weight_loss" then c - 500.0 else c
  }

  /** The weight-loss goal takes exactly 500 kcal off the activity-adjusted total; any other goal takes nothing. */
  lemma WeightLossDeficit(age: int, weight: real, height: real, gender: string, activity: string, goal: string)
    requires goal != "weight_loss"
    ensures DailyCalories(age, weight, height, gender, activity, "weight_loss")
         == DailyCalories(age, weight, height, gender, activity, goal) - 500.0
    ensures DailyCalories(age, weight, height, gender, activity, goal)
         == Bmr(age, weight, height, gender) * ActivityFactor(activity)
  {
  }

  /**
   * The daily needs. Calories are the rounded total, but never below 1200;
   * carbs (half the energy at 4 kcal/g) and fat (a quarter at 9 kcal/g) are
   * taken from the total before the floor; protein is 0.8 g per kg.
   */
  function CalculateNutrition(age: int, weight: real, height: real, gender: string, activity: string, goal: string): (r: Needs)
    ensures r.calories >= 1200
    ensures r.calories == 1200 <==> DailyCalories(age, weight, height, gender, activity, goal) <= 1200.5
    ensures r.calories > 1200 ==>
      -0.5 <= r.calories as real - DailyCalories(age, weight, height, gender, activity, goal) <= 0.5
    ensures -0.5 <= r.protein as real - 0.8 * weight <= 0.5
    ensures -0.5 <= r.carbs as real - DailyCalories(age, weight, height, gender, activity, goal) / 8.0 <= 0.5
    ensures -0.5 <= r.fat as real - DailyCalories(age, weight, height, gender, activity, goal) / 36.0 <= 0.5
  {
    var c := DailyCalories(age, weight, height, gender, activity, goal);
    var rounded := RoundHalfEven(c);
    assert c == 1200.5 ==> rounded == 1200 by {
      if c == 1200.5 { assert c.Floor == 1200; }
    }
    Needs(
      if rounded < 1200 then 1200 else rounded,
      RoundHalfEven(0.8 * weight),
      RoundHalfEven(0.50 * c / 4.0),
      RoundHalfEven(0.25 * c / 9.0))
  }

  /** Protein depends on the weight alone. */
  lemma ProteinDependsOnWeightOnly(
    weight: real,
    age1: int, height1: real, gender1: string, activity1: string, goal1: string,
    age2: int, height2: real, gender2: string, activity2: string, goal2: string)
    ensures CalculateNutrition(age1, weight, height1, gender1, activity1, goal1).protein
         == CalculateNutrition(age2, weight, height2, gender2, activity2, goal2).protein
  {
  }

  /** Gender and activity level are compared without regard to letter case. */
  lemma NeedsIgnoreCase(age: int, weight: real, height: real, g1: string, g2: string, a1: string, a2: string, goal: string)
    requires Lower(g1) == Lower(g2) && Lower(a1) == Lower(a2)
    ensures CalculateNutrition(age, weight, height, g1, a1, goal) == CalculateNutrition(age, weight, height, g2, a2, goal)
  {
    assert Bmr(age, weight, height, g1) == Bmr(age, weight, height, g2);
    assert ActivityFactor(a1) == ActivityFactor(a2);
    assert DailyCalories(age, weight, height, g1, a1, goal) == DailyCalories(age, weight, height, g2, a2, goal);
  }

  /** A 30-year-old man of 70 kg and 175 cm, sedentary, losing weight. */
  lemma NeedsExample()
    ensures CalculateNutrition(30, 70.0, 175.0, "male", "sedentary", "weight_loss") == Needs(1478, 56, 185, 41)
  {
    assert Lower("male") == "male";
    assert Lower("sedentary") == "sedentary";
    var c := DailyCalories(30, 70.0, 175.0, "male", "sedentary", "weight_loss");
    assert c == 1478.5;
    assert c.Floor == 1478;
    assert (56.0).Floor == 56;
    assert (0.50 * c / 4.0).Floor == 184;
    assert (0.25 * c / 9.0).Floor == 41;
  }

  /** When the floor applies, carbs and fat still follow the unfloored total. */
  lemma FlooredNeedsExample()
    ensures CalculateNutrition(80, 40.0, 150.0, "female", "sedentary", "weight_loss") == Needs(1200, 32, 54, 12)
  {
    assert Lower("female") == "female";
    assert Lower("female") != "male";
    assert Lower("sedentary") == "sedentary";
    var c := DailyCalories(80, 40.0, 150.0, "female", "sedentary", "weight_loss");
    assert c == 431.8;
    assert c.Floor == 431;
    assert (32.0).Floor == 32;
    assert (0.50 * c / 4.0).Floor == 53;
    assert (0.25 * c / 9.0).Floor == 11;
  }

  // ---------------------------------------------------------------------
  // Ranking
  // ---------------------------------------------------------------------

  /**
   * A food with its scores. `glycemicScore` is None where the source's
   * GI_Score column is absent or NaN; `score` is None where Score is NaN.
   */
  datatype Scored = Scored(food: Food, nutritionScore: real, glycemicScore: Option<real>, score: Option<real>)

  function Abs(x: real): real {
    if x < 0.0 then -x else x
  }

  /** The four scored columns of a food, in the order Calories, Protein, Carbs, Fat. */
  function NutrientValues(f: Food): seq<Option<real>> {
    [f.row.calories, f.row.protein, f.row.carbs, f.row.fat]
  }

  function NutrientTargets(n: Needs): seq<int> {
    [n.calories, n.protein, n.carbs, n.fat]
  }

  /** Relative distance of `v` from a quarter of the daily target. */
  function Deviation(v: real, target: int): (d: real)
    requires target > 0
    ensures d >= 0.0
    ensures d == 0.0 <==> v == target as real / 4.0
  {
    Abs(v - target as real / 4.0) / (target as real / 4.0)
  }

  /** Column `i` takes part in the score: its target is positive and the food has a value. */
  predicate Qualifies(values: seq<Option<real>>, targets: seq<int>, i: nat)
    requires i < |values| && i < |targets|
  {
    targets[i] > 0 && values[i].Some?
  }

  /** The deviations of the qualifying columns among the first `n`, in column order. */
  function Deviations(values: seq<Option<real>>, targets: seq<int>, n: nat): (ds: seq<real>)
    requires n <= |values| && n <= |targets|
    ensures forall k :: 0 <= k < |ds| ==> ds[k] >= 0.0
  {
    if n == 0 then []
    else
      Deviations(values, targets, n - 1)
      + if Qualifies(values, targets, n - 1) then [Deviation(values[n - 1].value, targets[n - 1])] else []
  }

  function Sum(s: seq<real>): real {
    if s == [] then 0.0 else Sum(s[..|s| - 1]) + s[|s| - 1]
  }

  /** One minus the mean deviation over the qualifying columns, or 0 when none qualifies. */
  function NutritionScore(f: Food, needs: Needs): real {
    var ds := Deviations(NutrientValues(f), NutrientTargets(needs), 4);
    if ds == [] then 0.0 else 1.0 - Sum(ds) / |ds| as real
  }

  /** The per-row score loop: collects the deviations column by column, then averages. */
  method ComputeNutritionScore(f: Food, needs: Needs) returns (score: real)
    ensures score == NutritionScore(f, needs)
  {
    var values := NutrientValues(f);
    var targets := NutrientTargets(needs);
    var diffs: seq<real> := [];
    for i := 0 to 4
      invariant diffs == Deviations(values, targets, i)
    {
      if targets[i] > 0 && values[i].Some? {
        diffs := diffs + [Deviation(values[i].value, targets[i])];
      }
    }
    if diffs != [] {
      score := 1.0 - Sum(diffs) / |diffs| as real;
    } else {
      score := 0.0;
    }
  }

  lemma {:induction false} SumOfNonnegatives(s: seq<real>)
    requires forall k :: 0 <= k < |s| ==> s[k] >= 0.0
    ensures Sum(s) >= 0.0
    ensures Sum(s) == 0.0 <==> forall k :: 0 <= k < |s| ==> s[k] == 0.0
  {
    if s != [] {
      SumOfNonnegatives(s[..|s| - 1]);
    }
  }

  /** No column among the first `n` qualifies. */
  predicate NoneQualifies(values: seq<Option<real>>, targets: seq<int>, n: nat)
    requires n <= |values| && n <= |targets|
  {
    forall i :: 0 <= i < n ==> !Qualifies(values, targets, i)
  }

  /** Every qualifying column among the first `n` sits exactly at a quarter of its target. */
  predicate AllOnTarget(values: seq<Option<real>>, targets: seq<int>, n: nat)
    requires n <= |values| && n <= |targets|
  {
    forall i :: 0 <= i < n && Qualifies(values, targets, i) ==> values[i].value == targets[i] as real / 4.0
  }

  predicate AllZero(s: seq<real>) {
    forall k :: 0 <= k < |s| ==> s[k] == 0.0
  }

  lemma {:induction false} DeviationsEmpty(values: seq<Option<real>>, targets: seq<int>, n: nat)
    requires n <= |values| && n <= |targets|
    ensures Deviations(values, targets, n) == [] <==> NoneQualifies(values, targets, n)
  {
    if n > 0 {
      DeviationsEmpty(values, targets, n - 1);
    }
  }

  lemma {:induction false} DeviationsVanish(values: seq<Option<real>>, targets: seq<int>, n: nat)
    requires n <= |values| && n <= |targets|
    ensures AllZero(Deviations(values, targets, n)) <==> AllOnTarget(values, targets, n)
  {
    if n > 0 {
      DeviationsVanish(values, targets, n - 1);
      var prev := Deviations(values, targets, n - 1);
      var ds := Deviations(values, targets, n);
      assert AllOnTarget(values, targets, n) <==>
        (AllOnTarget(values, targets, n - 1)
         && (Qualifies(values, targets, n - 1) ==> values[n - 1].value == targets[n - 1] as real / 4.0));
      if Qualifies(values, targets, n - 1) {
        var last := Deviation(values[n - 1].value, targets[n - 1]);
        assert ds == prev + [last];
        assert AllZero(ds) <==> AllZero(prev) && last == 0.0 by {
          assert forall k :: 0 <= k < |prev| ==> ds[k] == prev[k];
          assert ds[|prev|] == last;
        }
      } else {
        assert ds == prev;
      }
    }
  }

  /** The nutrition score never exceeds 1. */
  lemma NutritionScoreAtMostOne(f: Food, needs: Needs)
    ensures NutritionScore(f, needs) <= 1.0
  {
    var ds := Deviations(NutrientValues(f), NutrientTargets(needs), 4);
    SumOfNonnegatives(ds);
  }

  /**
   * The nutrition score is exactly 1 when and only when some column
   * qualifies and every qualifying value is exactly a quarter of its target.
   */
  lemma NutritionScoreIsOne(f: Food, needs: Needs)
    ensures NutritionScore(f, needs) == 1.0 <==>
      (exists i :: 0 <= i < 4 && Qualifies(NutrientValues(f), NutrientTargets(needs), i))
      && forall i :: 0 <= i < 4 && Qualifies(NutrientValues(f), NutrientTargets(needs), i) ==>
           NutrientValues(f)[i].value == NutrientTargets(needs)[i] as real / 4.0
  {
    var values, targets := NutrientValues(f), NutrientTargets(needs);
    var ds := Deviations(values, targets, 4);
    SumOfNonnegatives(ds);
    DeviationsEmpty(values, targets, 4);
    DeviationsVanish(values, targets, 4);
    if ds != [] {
      var n := |ds| as real;
      assert NutritionScore(f, needs) == 1.0 <==> Sum(ds) / n == 0.0;
      assert Sum(ds) / n == 0.0 <==> Sum(ds) == 0.0;
    }
  }

  /** The score is not clamped: a food at three quarters of every daily target scores -1. */
  lemma NutritionScoreUnclamped()
    ensures NutritionScore(
      Food(CatalogRow("big plate", Some("Lunch"), Some(1500.0), Some(75.0), Some(187.5), Some(45.0), None, None), Some("Lunch")),
      Needs(2000, 100, 250, 60)) == -1.0
  {
    var f := Food(CatalogRow("big plate", Some("Lunch"), Some(1500.0), Some(75.0), Some(187.5), Some(45.0), None, None), Some("Lunch"));
    var ds := Deviations(NutrientValues(f), NutrientTargets(Needs(2000, 100, 250, 60)), 4);
    assert Deviations(NutrientValues(f), NutrientTargets(Needs(2000, 100, 250, 60)), 0) == [];
    assert ds == [2.0, 2.0, 2.0, 2.0];
    assert Sum([2.0]) == 2.0 by { assert [2.0][..0] == []; }
    assert Sum([2.0, 2.0]) == 4.0 by { assert [2.0, 2.0][..1] == [2.0]; }
    assert Sum([2.0, 2.0, 2.0]) == 6.0 by { assert [2.0, 2.0, 2.0][..2] == [2.0, 2.0]; }
    assert Sum(ds) == 8.0 by { assert ds[..3] == [2.0, 2.0, 2.0]; }
  }

  /** The largest glycemic index present among `rows`, if any. */
  function MaxGlycemic(rows: seq<Food>): (m: Option<real>)
    ensures m.None? <==> forall f :: f in rows ==> f.row.glycemicIndex.None?
    ensures m.Some? ==> forall f :: f in rows && f.row.glycemicIndex.Some? ==> f.row.glycemicIndex.value <= m.value
    ensures m.Some? ==> exists f :: f in rows && f.row.glycemicIndex == m
  {
    if rows == [] then None
    else
      var rest := MaxGlycemic(rows[1..]);
      var g := rows[0].row.glycemicIndex;
      if g.None? then rest
      else if rest.None? || g.value >= rest.value then g
      else rest
  }

  function Clip(x: real, lo: real, hi: real): real {
    if x < lo then lo else if x > hi then hi else x
  }

  /**
   * GI_Score = 1 - clip(gi / max, 0, 1), following IEEE division by zero:
   * 0/0 is NaN (None), a positive or negative value over 0 clips to 1 or 0.
   */
  function GlycemicScore(gi: Option<real>, maxGi: Option<real>): (r: Option<real>)
    ensures r.Some? ==> 0.0 <= r.value <= 1.0
    ensures gi.None? || maxGi.None? ==> r.None?
  {
    if gi.None? || maxGi.None? then None
    else
      var g, m := gi.value, maxGi.value;
      if m != 0.0 then Some(1.0 - Clip(g / m, 0.0, 1.0))
      else if g == 0.0 then None
      else if g > 0.0 then Some(0.0)
      else Some(1.0)
  }

  /** With a positive maximum, a lower glycemic index never scores lower, and the maximum itself scores 0. */
  lemma GlycemicScoreMonotone(g1: real, g2: real, m: real)
    requires 0.0 < m && g1 <= g2 <= m
    ensures GlycemicScore(Some(g2), Some(m)) == Some(0.0) || g2 < m
    ensures GlycemicScore(Some(g1), Some(m)).value >= GlycemicScore(Some(g2), Some(m)).value
  {
    assert g1 / m <= g2 / m;
    assert g2 == m ==> g2 / m == 1.0;
  }

  /** The condition "diabetes" blends in the glycemic score; any other condition uses the nutrition score as is. */
  function ScoreFood(f: Food, needs: Needs, condition: string, hasGlycemicIndex: bool, maxGi: Option<real>): (s: Scored)
    ensures s.food == f && s.nutritionScore == NutritionScore(f, needs)
  {
    var ns := NutritionScore(f, needs);
    if condition == "diabetes" then
      var gs := if hasGlycemicIndex then GlycemicScore(f.row.glycemicIndex, maxGi) else Some(0.5);
      Scored(f, ns, gs, if gs.Some? then Some(0.7 * ns + 0.3 * gs.value) else None)
    else
      Scored(f, ns, None, Some(ns))
  }

  /** The rows that carry a diabetes-management annotation, in order. */
  function Annotated(rows: seq<Food>): (r: seq<Food>)
    ensures forall f :: f in r <==> f in rows && f.row.benefits.Some?
  {
    if rows == [] then []
    else if rows[0].row.benefits.Some? then [rows[0]] + Annotated(rows[1..])
    else Annotated(rows[1..])
  }

  /** An annotated row is kept as often as it occurs; every other row is dropped. */
  lemma {:induction false} AnnotatedCounts(rows: seq<Food>)
    ensures forall f :: multiset(Annotated(rows))[f] == if f.row.benefits.Some? then multiset(rows)[f] else 0
  {
    if rows != [] {
      AnnotatedCounts(rows[1..]);
      assert rows == [rows[0]] + rows[1..];
      assert multiset(rows) == multiset{rows[0]} + multiset(rows[1..]);
    }
  }

  /** The rows that enter the ranking: under "diabetes" only the annotated ones, when the column exists. */
  function RankedRows(c: Catalog<Food>, condition: string): seq<Food> {
    if condition == "diabetes" && c.hasBenefits then Annotated(c.rows) else c.rows
  }

  /** The glycemic maximum the diabetes score divides by: taken over the rows that enter the ranking. */
  function RankMaxGlycemic(c: Catalog<Food>, condition: string): Option<real> {
    if condition == "diabetes" && c.hasGlycemicIndex then MaxGlycemic(RankedRows(c, condition)) else None
  }

  function ScoreRows(c: Catalog<Food>, needs: Needs, condition: string): seq<Scored> {
    var maxGi := RankMaxGlycemic(c, condition);
    Map(RankedRows(c, condition), f => ScoreFood(f, needs, condition, c.hasGlycemicIndex, maxGi))
  }

  /** Descending order of Score, with NaN scores last. */
  predicate ScoreAtLeast(a: Scored, b: Scored) {
    b.score.None? || (a.score.Some? && a.score.value >= b.score.value)
  }

  lemma ScoreAtLeastIsOrder()
    ensures Total(ScoreAtLeast) && Transitive(ScoreAtLeast)
  {
  }

  /** The foods of a ranked list. */
  function Foods(s: seq<Scored>): seq<Food> {
    Map(s, (x: Scored) => x.food)
  }

  /** The ranked catalog: the scored rows, by descending score. */
  function Rank(c: Catalog<Food>, needs: Needs, condition: string): (r: seq<Scored>)
    ensures Sorted(r, ScoreAtLeast)
    ensures multiset(r) == multiset(ScoreRows(c, needs, condition))
  {
    ScoreAtLeastIsOrder();
    InsertionSortSorted(ScoreRows(c, needs, condition), ScoreAtLeast);
    InsertionSort(ScoreRows(c, needs, condition), ScoreAtLeast)
  }

  /** The ranking is a permutation of the rows that enter it. */
  lemma RankPermutesRows(c: Catalog<Food>, needs: Needs, condition: string)
    ensures multiset(Foods(Rank(c, needs, condition))) == multiset(RankedRows(c, condition))
  {
    var scored := ScoreRows(c, needs, condition);
    MapPermutation(Rank(c, needs, condition), scored, (x: Scored) => x.food);
    assert Foods(scored) == RankedRows(c, condition);
  }

  /** Every ranked entry is one of the scored rows. */
  lemma RankedEntry(c: Catalog<Food>, needs: Needs, condition: string, x: Scored)
    requires x in Rank(c, needs, condition)
    ensures x.food in RankedRows(c, condition)
    ensures x == ScoreFood(x.food, needs, condition, c.hasGlycemicIndex, RankMaxGlycemic(c, condition))
  {
    assert x in multiset(ScoreRows(c, needs, condition));
    var d := RankedRows(c, condition);
    var i :| 0 <= i < |d| && ScoreRows(c, needs, condition)[i] == x;
    assert x == ScoreFood(d[i], needs, condition, c.hasGlycemicIndex, RankMaxGlycemic(c, condition));
  }

  /** Under a condition other than "diabetes" no row is dropped and Score equals NutritionScore. */
  lemma RankOtherCondition(c: Catalog<Food>, needs: Needs, condition: string)
    requires condition != "diabetes"
    ensures multiset(Foods(Rank(c, needs, condition))) == multiset(c.rows)
    ensures forall x :: x in Rank(c, needs, condition) ==>
      x.score == Some(x.nutritionScore) && x.nutritionScore == NutritionScore(x.food, needs)
  {
    RankPermutesRows(c, needs, condition);
    forall x | x in Rank(c, needs, condition)
      ensures x.score == Some(x.nutritionScore) && x.nutritionScore == NutritionScore(x.food, needs)
    {
      RankedEntry(c, needs, condition, x);
    }
  }

  /**
   * Under "diabetes": with the annotation column every ranked row is
   * annotated; Score = 0.7 NutritionScore + 0.3 GI_Score (NaN when GI_Score
   * is); GI_Score lies in [0, 1] and is 0.5 throughout without a GI column.
   */
  lemma RankDiabetes(c: Catalog<Food>, needs: Needs)
    ensures forall x :: x in Rank(c, needs, "diabetes") ==> DiabetesScored(c, needs, x)
  {
    forall x | x in Rank(c, needs, "diabetes") ensures DiabetesScored(c, needs, x) {
      RankedEntry(c, needs, "diabetes", x);
      if c.hasBenefits {
        assert x.food in Annotated(c.rows);
      }
      DiabetesScoreFood(x.food, needs, c.hasGlycemicIndex, RankMaxGlycemic(c, "diabetes"));
    }
  }

  /** The diabetes score of one row: the glycemic score in range (0.5 without the column) and the 0.7/0.3 blend. */
  lemma DiabetesScoreFood(f: Food, needs: Needs, hasGlycemicIndex: bool, maxGi: Option<real>)
    ensures var x := ScoreFood(f, needs, "diabetes", hasGlycemicIndex, maxGi);
      && (x.glycemicScore.Some? ==> 0.0 <= x.glycemicScore.value <= 1.0)
      && (!hasGlycemicIndex ==> x.glycemicScore == Some(0.5))
      && x.score == (if x.glycemicScore.Some? then Some(0.7 * x.nutritionScore + 0.3 * x.glycemicScore.value) else None)
  {
  }

  /** What a row ranked under "diabetes" carries. */
  predicate DiabetesScored(c: Catalog<Food>, needs: Needs, x: Scored) {
    && (c.hasBenefits ==> x.food.row.benefits.Some?)
    && x.nutritionScore == NutritionScore(x.food, needs)
    && (x.glycemicScore.Some? ==> 0.0 <= x.glycemicScore.value <= 1.0)
    && (!c.hasGlycemicIndex ==> x.glycemicScore == Some(0.5))
    && x.score == (if x.glycemicScore.Some? then Some(0.7 * x.nutritionScore + 0.3 * x.glycemicScore.value) else None)
  }

  // ---------------------------------------------------------------------
  // Candidate pools
  // ---------------------------------------------------------------------

  /** The meals of a day, in order. */
  const MealOrder: seq<string> := ["Breakfast", "Lunch", "Snack", "Dinner"]

  /** Pool size used by the plan generator. */
  const TopK: nat := 200

  function Min(a: int, b: int): int {
    if a <= b then a else b
  }

  /** The ranked rows of one meal category, in ranked order. */
  function InCategory(ranked: seq<Scored>, meal: string): (r: seq<Scored>)
    ensures |r| <= |ranked|
    ensures forall x :: x in r <==> x in ranked && x.food.category == Some(meal)
  {
    if ranked == [] then []
    else
      var rest := InCategory(ranked[1..], meal);
      if ranked[0].food.category == Some(meal) then [ranked[0]] + rest else rest
  }

  lemma {:induction false} InCategorySorted(ranked: seq<Scored>, meal: string)
    requires Sorted(ranked, ScoreAtLeast)
    ensures Sorted(InCategory(ranked, meal), ScoreAtLeast)
  {
    if ranked != [] {
      InCategorySorted(ranked[1..], meal);
      var rest := InCategory(ranked[1..], meal);
      forall j | 0 <= j < |rest| ensures ScoreAtLeast(ranked[0], rest[j]) {
        assert rest[j] in ranked[1..];
      }
    }
  }

  /** Filtering distributes over concatenation: the kept rows stay in their ranked order. */
  lemma {:induction false} InCategoryAppend(a: seq<Scored>, b: seq<Scored>, meal: string)
    ensures InCategory(a + b, meal) == InCategory(a, meal) + InCategory(b, meal)
  {
    if a == [] {
      assert a + b == b;
    } else {
      assert (a + b)[1..] == a[1..] + b;
      InCategoryAppend(a[1..], b, meal);
    }
  }

  /** Every ranked row of the meal is kept as often as it occurs, and every other row is dropped. */
  lemma {:induction false} InCategoryCounts(ranked: seq<Scored>, meal: string)
    ensures forall x ::
      multiset(InCategory(ranked, meal))[x] == if x.food.category == Some(meal) then multiset(ranked)[x] else 0
  {
    if ranked != [] {
      InCategoryCounts(ranked[1..], meal);
      assert ranked == [ranked[0]] + ranked[1..];
      assert multiset(ranked) == multiset{ranked[0]} + multiset(ranked[1..]);
    }
  }

  /** The list a pool is cut from: the meal's own rows, or every ranked row when the meal has none. */
  function PoolSource(ranked: seq<Scored>, meal: string): seq<Scored> {
    var own := InCategory(ranked, meal);
    if own == [] then ranked else own
  }

  /** The candidate pool of one meal: the first `topK` rows of its source. */
  function Pool(ranked: seq<Scored>, meal: string, topK: nat): seq<Scored> {
    var src := PoolSource(ranked, meal);
    src[..Min(topK, |src|)]
  }

  /**
   * A pool holds at most `topK` rows and is empty only when the ranking is
   * (or `topK` is 0); when the meal has rows of its own they are all of
   * that meal, otherwise the pool is the head of the whole ranking.
   */
  lemma PoolShape(ranked: seq<Scored>, meal: string, topK: nat)
    ensures |Pool(ranked, meal, topK)| <= topK
    ensures Pool(ranked, meal, topK) == [] <==> ranked == [] || topK == 0
    ensures InCategory(ranked, meal) != [] ==>
      forall x :: x in Pool(ranked, meal, topK) ==> x.food.category == Some(meal)
    ensures var own := InCategory(ranked, meal);
      own != [] ==> Pool(ranked, meal, topK) == own[..Min(topK, |own|)]
    ensures InCategory(ranked, meal) == [] ==> Pool(ranked, meal, topK) == ranked[..Min(topK, |ranked|)]
    ensures forall x :: x in Pool(ranked, meal, topK) ==> x in ranked
  {
    var own := InCategory(ranked, meal);
    if ranked != [] && own == [] {
      assert ranked[0] in ranked;
    }
    forall x | x in Pool(ranked, meal, topK) ensures x in ranked && (own != [] ==> x.food.category == Some(meal)) {
      assert x in PoolSource(ranked, meal);
    }
  }

  /** Cut from a ranking, a pool is itself in descending order and outranks every source row it leaves out. */
  lemma PoolIsTopK(ranked: seq<Scored>, meal: string, topK: nat)
    requires Sorted(ranked, ScoreAtLeast)
    ensures Sorted(Pool(ranked, meal, topK), ScoreAtLeast)
    ensures var pool, src := Pool(ranked, meal, topK), PoolSource(ranked, meal);
      forall i, j :: 0 <= i < |pool| <= j < |src| ==> ScoreAtLeast(pool[i], src[j])
  {
    InCategorySorted(ranked, meal);
  }

  /** Builds the four pools, one meal at a time. */
  method BuildCandidatePools(ranked: seq<Scored>, topK: nat) returns (pools: map<string, seq<Scored>>)
    ensures pools.Keys == {"Breakfast", "Lunch", "Snack", "Dinner"}
    ensures forall m :: m in pools ==> pools[m] == Pool(ranked, m, topK)
  {
    pools := map[];
    for i := 0 to |MealOrder|
      invariant pools.Keys == set j | 0 <= j < i :: MealOrder[j]
      invariant forall m :: m in pools ==> pools[m] == Pool(ranked, m, topK)
    {
      var meal := MealOrder[i];
      var pool := InCategory(ranked, meal);
      if pool == [] {
        pool := ranked;
      }
      pools := pools[meal := pool[..Min(topK, |pool|)]];
    }
    assert (set j | 0 <= j < 4 :: MealOrder[j]) == {"Breakfast", "Lunch", "Snack", "Dinner"} by {
      assert MealOrder[0] == "Breakfast" && MealOrder[1] == "Lunch" && MealOrder[2] == "Snack" && MealOrder[3] == "Dinner";
    }
  }

  // ---------------------------------------------------------------------
  // Day assembly and the 30-day plan
  // ---------------------------------------------------------------------

  /** One meal of one day: the food chosen and its four values rounded to one decimal. */
  datatype MealRow = MealRow(meal: string, food: string, calories: real, protein: real, carbs: real, fat: real)

  /** A plan row: a meal row with its day number. */
  datatype PlanRow = PlanRow(day: int, entry: MealRow)

  datatype Nutrients = Nutrients(calories: real, protein: real, carbs: real, fat: real)

  /** A row of the daily totals. */
  datatype DayTotal = DayTotal(day: int, total: Nutrients)

  /** The error `sample` raises on an empty pool, with the meal concerned. */
  datatype PlanError = EmptyPool(meal: string)

  const PlanDays: nat := 30

  /** Every row of the pool has its four nutrition values. */
  predicate Usable(pool: seq<Scored>) {
    forall x :: x in pool ==> HasNutrition(x.food.row)
  }

  /** The meal row recorded for a chosen food. */
  function Serve(meal: string, f: Food): (r: MealRow)
    requires HasNutrition(f.row)
    ensures r.meal == meal && r.food == f.row.name
    ensures -0.05 <= r.calories - f.row.calories.value <= 0.05
    ensures -0.05 <= r.protein - f.row.protein.value <= 0.05
    ensures -0.05 <= r.carbs - f.row.carbs.value <= 0.05
    ensures -0.05 <= r.fat - f.row.fat.value <= 0.05
  {
    MealRow(meal, f.row.name, Round1(f.row.calories.value), Round1(f.row.protein.value),
            Round1(f.row.carbs.value), Round1(f.row.fat.value))
  }

  /** The draw with oracle value `n`: the pool entry at `n` modulo the pool size. */
  function Draw(meal: string, pool: seq<Scored>, n: nat): (r: MealRow)
    requires pool != [] && Usable(pool)
    ensures r.meal == meal && exists x :: x in pool && r == Serve(meal, x.food)
  {
    assert pool[n % |pool|] in pool;
    Serve(meal, pool[n % |pool|].food)
  }

  /** Every entry of a pool is served by some oracle value: no pool entry is out of reach of the draw. */
  lemma DrawReachesEvery(meal: string, pool: seq<Scored>)
    requires pool != [] && Usable(pool)
    ensures forall x :: x in pool ==> exists n: nat :: Draw(meal, pool, n) == Serve(meal, x.food)
  {
    forall x | x in pool
      ensures exists n: nat :: Draw(meal, pool, n) == Serve(meal, x.food)
    {
      var i :| 0 <= i < |pool| && pool[i] == x;
      assert i % |pool| == i;
      assert Draw(meal, pool, i) == Serve(meal, x.food);
    }
  }

  /** Meal `i` is the first in MealOrder whose pool is empty. */
  predicate FirstEmpty(pools: map<string, seq<Scored>>, i: int)
    requires forall m :: m in MealOrder ==> m in pools
  {
    0 <= i < 4 && pools[MealOrder[i]] == [] && forall j :: 0 <= j < i ==> pools[MealOrder[j]] != []
  }

  /**
   * One day: one draw per meal in MealOrder; draw number `first + i` serves
   * meal `i`. Fails at the first meal whose pool is empty.
   */
  method AssembleOneDay(pools: map<string, seq<Scored>>, draw: nat -> nat, first: nat)
    returns (r: Result<seq<MealRow>, PlanError>)
    requires forall m :: m in MealOrder ==> m in pools && Usable(pools[m])
    ensures r.Ok? <==> forall i :: 0 <= i < 4 ==> pools[MealOrder[i]] != []
    ensures r.Err? ==> exists i :: FirstEmpty(pools, i) && r.error == EmptyPool(MealOrder[i])
    ensures r.Ok? ==> |r.value| == 4 && forall i :: 0 <= i < 4 ==>
      r.value[i] == Draw(MealOrder[i], pools[MealOrder[i]], draw(first + i))
  {
    var rows: seq<MealRow> := [];
    for i := 0 to 4
      invariant |rows| == i
      invariant forall j :: 0 <= j < i ==>
        pools[MealOrder[j]] != [] && rows[j] == Draw(MealOrder[j], pools[MealOrder[j]], draw(first + j))
    {
      var meal := MealOrder[i];
      var pool := pools[meal];
      if pool == [] {
        return Err(EmptyPool(meal));
      }
      var chosen := pool[draw(first + i) % |pool|];
      rows := rows + [Serve(meal, chosen.food)];
    }
    return Ok(rows);
  }

  function NutrientsOf(r: MealRow): Nutrients {
    Nutrients(r.calories, r.protein, r.carbs, r.fat)
  }

  function Add(a: Nutrients, b: Nutrients): Nutrients {
    Nutrients(a.calories + b.calories, a.protein + b.protein, a.carbs + b.carbs, a.fat + b.fat)
  }

  const Zero := Nutrients(0.0, 0.0, 0.0, 0.0)

  /** The sum of the four values over the plan rows of day `day`. */
  function DaySum(plan: seq<PlanRow>, day: int): Nutrients {
    if plan == [] then Zero
    else Add(if plan[0].day == day then NutrientsOf(plan[0].entry) else Zero, DaySum(plan[1..], day))
  }

  /** The per-day totals of the plan, by day 1 to 30 (grouping by day and summing). */
  function DailyTotals(plan: seq<PlanRow>): (totals: seq<DayTotal>)
    ensures |totals| == PlanDays
    ensures forall i :: 0 <= i < PlanDays ==> totals[i].day == i + 1
  {
    seq(PlanDays, i requires 0 <= i < PlanDays => DayTotal(i + 1, DaySum(plan, i + 1)))
  }

  /** The four values of rows `start` to `start + 3` added up. */
  function BlockSum(plan: seq<PlanRow>, start: nat): Nutrients
    requires start + 4 <= |plan|
  {
    Add(Add(Add(NutrientsOf(plan[start].entry), NutrientsOf(plan[start + 1].entry)),
            NutrientsOf(plan[start + 2].entry)), NutrientsOf(plan[start + 3].entry))
  }

  lemma {:induction false} DaySumAppend(a: seq<PlanRow>, b: seq<PlanRow>, day: int)
    ensures DaySum(a + b, day) == Add(DaySum(a, day), DaySum(b, day))
  {
    if a != [] {
      assert (a + b)[1..] == a[1..] + b;
      DaySumAppend(a[1..], b, day);
    } else {
      assert a + b == b;
    }
  }

  lemma {:induction false} DaySumAbsent(plan: seq<PlanRow>, day: int)
    requires forall k :: 0 <= k < |plan| ==> plan[k].day != day
    ensures DaySum(plan, day) == Zero
  {
    if plan != [] {
      DaySumAbsent(plan[1..], day);
    }
  }

  /** Four rows of the same day total their four values. */
  lemma DaySumOfBlock(block: seq<PlanRow>, day: int)
    requires |block| == 4 && forall k :: 0 <= k < 4 ==> block[k].day == day
    ensures DaySum(block, day) == BlockSum(block, 0)
  {
    assert block[3..][1..] == [];
    assert block[1..][1..] == block[2..] && block[2..][1..] == block[3..];
    assert DaySum(block[3..], day) == Add(NutrientsOf(block[3].entry), Zero);
    assert DaySum(block[2..], day) == Add(NutrientsOf(block[2].entry), DaySum(block[3..], day));
    assert DaySum(block[1..], day) == Add(NutrientsOf(block[1].entry), DaySum(block[2..], day));
  }

  lemma QuarterBelow(k: nat, d: nat)
    requires k < 4 * d
    ensures k / 4 < d
  {
  }

  lemma QuarterAbove(k: nat, d: nat)
    requires 4 * d + 4 <= k
    ensures k / 4 > d
  {
  }

  lemma QuarterWithin(i: nat, d: nat)
    requires i < 4
    ensures (4 * d + i) / 4 == d && (4 * d + i) % 4 == i
  {
  }

  /** In a plan whose row k belongs to day k/4 + 1, each day's total is the sum of its own four rows. */
  lemma DaySumOfDay(plan: seq<PlanRow>, d: nat)
    requires 4 * d + 4 <= |plan|
    requires forall k :: 0 <= k < |plan| ==> plan[k].day == k / 4 + 1
    ensures DaySum(plan, d + 1) == BlockSum(plan, 4 * d)
  {
    var s := 4 * d;
    var block := plan[s..s + 4];
    DaySumSplit(plan, s, d + 1);
    DaysBefore(plan, d, plan[..s]);
    DaySumAbsent(plan[..s], d + 1);
    DaysAfter(plan, d, plan[s + 4..]);
    DaySumAbsent(plan[s + 4..], d + 1);
    DaysWithin(plan, d);
    assert forall k :: 0 <= k < 4 ==> block[k].day == d + 1 by {
      forall k | 0 <= k < 4 ensures block[k].day == d + 1 {
        assert block[k] == plan[s + k];
      }
    }
    DaySumOfBlock(block, d + 1);
    assert BlockSum(block, 0) == BlockSum(plan, s);
  }

  /** A plan's total for one day is the total of the rows before, in and after a block of four. */
  lemma DaySumSplit(plan: seq<PlanRow>, s: nat, day: int)
    requires s + 4 <= |plan|
    ensures DaySum(plan, day) == Add(Add(DaySum(plan[..s], day), DaySum(plan[s..s + 4], day)), DaySum(plan[s + 4..], day))
  {
    var before, block, after := plan[..s], plan[s..s + 4], plan[s + 4..];
    assert plan == before + block + after;
    DaySumAppend(before + block, after, day);
    DaySumAppend(before, block, day);
  }

  lemma DaysBefore(plan: seq<PlanRow>, d: nat, before: seq<PlanRow>)
    requires 4 * d <= |plan| && before == plan[..4 * d]
    requires forall k :: 0 <= k < |plan| ==> plan[k].day == k / 4 + 1
    ensures forall k :: 0 <= k < |before| ==> before[k].day != d + 1
  {
    forall k | 0 <= k < |before| ensures before[k].day != d + 1 {
      assert before[k] == plan[k];
      QuarterBelow(k, d);
    }
  }

  lemma DaysAfter(plan: seq<PlanRow>, d: nat, after: seq<PlanRow>)
    requires 4 * d + 4 <= |plan| && after == plan[4 * d + 4..]
    requires forall k :: 0 <= k < |plan| ==> plan[k].day == k / 4 + 1
    ensures forall k :: 0 <= k < |after| ==> after[k].day != d + 1
  {
    forall k | 0 <= k < |after| ensures after[k].day != d + 1 {
      assert after[k] == plan[4 * d + 4 + k];
      QuarterAbove(4 * d + 4 + k, d);
    }
  }

  lemma DaysWithin(plan: seq<PlanRow>, d: nat)
    requires 4 * d + 4 <= |plan|
    requires forall k :: 0 <= k < |plan| ==> plan[k].day == k / 4 + 1
    ensures forall k :: 4 * d <= k < 4 * d + 4 ==> plan[k].day == d + 1
  {
    forall k | 4 * d <= k < 4 * d + 4 ensures plan[k].day == d + 1 {
      QuarterWithin(k - 4 * d, d);
    }
  }

  /**
   * Row k of the plan is day k/4 + 1, meal k mod 4 of MealOrder, drawn with
   * oracle value `draw(k)` from that meal's pool of the ranking.
   */
  predicate FollowsPools(plan: seq<PlanRow>, ranked: seq<Scored>, draw: nat -> nat) {
    forall k :: 0 <= k < |plan| ==> RowFollows(plan[k], k, ranked, draw)
  }

  /** Plan row number `k` is day k/4 + 1 and the draw `draw(k)` from the pool of meal k mod 4. */
  predicate RowFollows(row: PlanRow, k: nat, ranked: seq<Scored>, draw: nat -> nat) {
    var pool := Pool(ranked, MealOrder[k % 4], TopK);
    && row.day == k / 4 + 1
    && pool != [] && Usable(pool)
    && row.entry == Draw(MealOrder[k % 4], pool, draw(k))
  }

  /** The rows `rows` follow the pools as rows number `start` onwards of a plan. */
  predicate FollowsFrom(rows: seq<PlanRow>, start: nat, ranked: seq<Scored>, draw: nat -> nat) {
    forall i :: 0 <= i < |rows| ==> RowFollows(rows[i], start + i, ranked, draw)
  }

  /** A day assembled from the pools extends a plan that follows them. */
  lemma FollowsPoolsExtend(plan: seq<PlanRow>, ranked: seq<Scored>, draw: nat -> nat,
                           pools: map<string, seq<Scored>>, day: int, rows: seq<MealRow>)
    requires FollowsPools(plan, ranked, draw) && |plan| == 4 * (day - 1) && day >= 1
    requires PoolsFor(ranked, pools) && ranked != []
    requires |rows| == 4 && forall i :: 0 <= i < 4 ==>
      rows[i] == Draw(MealOrder[i], pools[MealOrder[i]], draw(|plan| + i))
    ensures FollowsPools(plan + Map(rows, (e: MealRow) => PlanRow(day, e)), ranked, draw)
  {
    var dayRows := Map(rows, (e: MealRow) => PlanRow(day, e));
    DayRowsFollow(ranked, draw, pools, day, |plan|, rows, dayRows);
    FollowsPoolsAppend(plan, dayRows, ranked, draw);
  }

  /** The four rows of day `day`, drawn meal by meal from the pools, are the rows the plan expects there. */
  lemma DayRowsFollow(ranked: seq<Scored>, draw: nat -> nat, pools: map<string, seq<Scored>>,
                      day: int, start: nat, rows: seq<MealRow>, dayRows: seq<PlanRow>)
    requires PoolsFor(ranked, pools) && ranked != [] && day >= 1 && start == 4 * (day - 1)
    requires |rows| == 4 && forall i :: 0 <= i < 4 ==>
      rows[i] == Draw(MealOrder[i], pools[MealOrder[i]], draw(start + i))
    requires |dayRows| == 4 && forall i :: 0 <= i < 4 ==> dayRows[i] == PlanRow(day, rows[i])
    ensures FollowsFrom(dayRows, start, ranked, draw)
  {
    forall i | 0 <= i < 4 ensures RowFollows(dayRows[i], start + i, ranked, draw) {
      NewRowFollows(ranked, draw, pools, day, i, rows[i]);
    }
  }

  /** Rows that follow the pools from position |plan| on extend a plan that follows them. */
  lemma FollowsPoolsAppend(plan: seq<PlanRow>, more: seq<PlanRow>, ranked: seq<Scored>, draw: nat -> nat)
    requires FollowsPools(plan, ranked, draw)
    requires FollowsFrom(more, |plan|, ranked, draw)
    ensures FollowsPools(plan + more, ranked, draw)
  {
    forall k | 0 <= k < |plan + more| ensures RowFollows((plan + more)[k], k, ranked, draw) {
      if k < |plan| {
        assert (plan + more)[k] == plan[k];
      } else {
        assert (plan + more)[k] == more[k - |plan|];
      }
    }
  }

  /** Meal `i` of day `day`, drawn from its pool, is the row the plan expects at that position. */
  lemma NewRowFollows(ranked: seq<Scored>, draw: nat -> nat, pools: map<string, seq<Scored>>,
                      day: int, i: nat, e: MealRow)
    requires PoolsFor(ranked, pools) && ranked != [] && day >= 1 && i < 4
    requires e == Draw(MealOrder[i], pools[MealOrder[i]], draw(4 * (day - 1) + i))
    ensures RowFollows(PlanRow(day, e), 4 * (day - 1) + i, ranked, draw)
  {
    QuarterWithin(i, day - 1);
    assert MealOrder[i] in MealOrder;
  }

  /** The daily totals of a plan laid out day by day, four rows a day. */
  lemma PlanTotals(plan: seq<PlanRow>)
    requires |plan| == 4 * PlanDays
    requires forall k :: 0 <= k < |plan| ==> plan[k].day == k / 4 + 1
    ensures forall d :: 0 <= d < PlanDays ==> DailyTotals(plan)[d] == DayTotal(d + 1, BlockSum(plan, 4 * d))
  {
    forall d | 0 <= d < PlanDays ensures DailyTotals(plan)[d] == DayTotal(d + 1, BlockSum(plan, 4 * d)) {
      DaySumOfDay(plan, d);
    }
  }

  lemma RankUsable(c: Catalog<Food>, needs: Needs, condition: string)
    requires forall f :: f in c.rows ==> HasNutrition(f.row)
    ensures Usable(Rank(c, needs, condition))
  {
    forall x | x in Rank(c, needs, condition) ensures HasNutrition(x.food.row) {
      RankedEntry(c, needs, condition, x);
    }
  }

  /** The pools of a ranking, one per meal: usable, and all empty exactly when the ranking is. */
  predicate PoolsFor(ranked: seq<Scored>, pools: map<string, seq<Scored>>) {
    forall m :: m in MealOrder ==>
      m in pools && pools[m] == Pool(ranked, m, TopK) && Usable(pools[m]) && (pools[m] == [] <==> ranked == [])
  }

  /** The pools of a usable ranking are usable, and all empty exactly when the ranking is. */
  lemma PoolsReady(ranked: seq<Scored>, pools: map<string, seq<Scored>>)
    requires Usable(ranked)
    requires forall m :: m in pools ==> pools[m] == Pool(ranked, m, TopK)
    requires pools.Keys == {"Breakfast", "Lunch", "Snack", "Dinner"}
    ensures PoolsFor(ranked, pools)
  {
    forall m | m in MealOrder
      ensures m in pools && pools[m] == Pool(ranked, m, TopK) && Usable(pools[m]) && (pools[m] == [] <==> ranked == [])
    {
      PoolShape(ranked, m, TopK);
    }
  }

  /** With the pools of one ranking, a day fails exactly when the ranking is empty, and then on breakfast. */
  lemma DayFailsOnBreakfast(ranked: seq<Scored>, pools: map<string, seq<Scored>>, r: Result<seq<MealRow>, PlanError>)
    requires PoolsFor(ranked, pools)
    requires r.Ok? <==> forall i :: 0 <= i < 4 ==> pools[MealOrder[i]] != []
    requires r.Err? ==> exists i :: FirstEmpty(pools, i) && r.error == EmptyPool(MealOrder[i])
    ensures r.Err? <==> ranked == []
    ensures r.Err? ==> r.error == EmptyPool("Breakfast")
  {
    assert MealOrder[0] in MealOrder;
    if r.Err? {
      var i :| FirstEmpty(pools, i) && r.error == EmptyPool(MealOrder[i]);
      assert MealOrder[i] in MealOrder;
    } else {
      assert pools[MealOrder[0]] != [];
    }
  }

  /**
   * The 30 days of the plan, day after day, each assembled from the pools;
   * fails on the first day when a pool is empty.
   */
  method AssembleDays(ranked: seq<Scored>, pools: map<string, seq<Scored>>, draw: nat -> nat)
    returns (r: Result<seq<PlanRow>, PlanError>)
    requires PoolsFor(ranked, pools)
    ensures r.Err? <==> ranked == []
    ensures r.Err? ==> r.error == EmptyPool("Breakfast")
    ensures r.Ok? ==> |r.value| == 4 * PlanDays && FollowsPools(r.value, ranked, draw)
  {
    var plan: seq<PlanRow> := [];
    for day := 1 to PlanDays + 1
      invariant ranked == [] ==> day == 1
      invariant |plan| == 4 * (day - 1)
      invariant FollowsPools(plan, ranked, draw)
    {
      var rows := AssembleOneDay(pools, draw, |plan|);
      DayFailsOnBreakfast(ranked, pools, rows);
      if rows.Err? {
        return Err(rows.error);
      }
      FollowsPoolsExtend(plan, ranked, draw, pools, day, rows.value);
      plan := plan + Map(rows.value, (e: MealRow) => PlanRow(day, e));
    }
    return Ok(plan);
  }

  /**
   * The plan: rank, build the pools, assemble 30 days, then total each day.
   * It fails with EmptyPool("Breakfast") exactly when nothing is ranked.
   */
  method Generate30DayPlan(c: Catalog<Food>, needs: Needs, condition: string, draw: nat -> nat)
    returns (r: Result<(seq<PlanRow>, seq<DayTotal>), PlanError>)
    requires forall f :: f in c.rows ==> HasNutrition(f.row)
    ensures r.Err? <==> Rank(c, needs, condition) == []
    ensures r.Err? ==> r.error == EmptyPool("Breakfast")
    ensures r.Ok? ==> |r.value.0| == 4 * PlanDays && FollowsPools(r.value.0, Rank(c, needs, condition), draw)
    ensures r.Ok? ==> |r.value.1| == PlanDays && forall d :: 0 <= d < PlanDays ==>
      r.value.1[d] == DayTotal(d + 1, BlockSum(r.value.0, 4 * d))
  {
    var ranked := Rank(c, needs, condition);
    RankUsable(c, needs, condition);
    var pools := BuildCandidatePools(ranked, TopK);
    PoolsReady(ranked, pools);
    var days := AssembleDays(ranked, pools, draw);
    if days.Err? {
      return Err(days.error);
    }
    var plan := days.value;
    PlanTotals(plan);
    return Ok((plan, DailyTotals(plan)));
  }
}
