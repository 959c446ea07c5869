/**
 * The request-level logic of the POST /plan route in app/main.py: the goal
 * normaliser, the goal-to-needs mapping, the comparison of a stored profile
 * with the submitted one, the cached-plan fallbacks, and the route itself
 * with its reads from the document store turned into parameters.
 */
module PlanService {
  import opened Wrappers
  import opened PyText
  import opened Recommender

  // ---------------------------------------------------------------------
  // Goal normalisation
  // ---------------------------------------------------------------------

  /** `(goal or "").lower().replace("-", "_")`: None and "" both become "". */
  function GoalKey(goal: Option<string>): string {
    ReplaceChar(Lower(goal.GetOr("")), '-', '_')
  }

  /** The condition a goal stands for: "weight_loss" for its two spellings, "diabetes" for anything else. */
  function NormalizeGoal(goal: Option<string>): (condition: string)
    ensures condition == "weight_loss" || condition == "diabetes"
    ensures goal.None? || goal == Some("") ==> condition == "diabetes"
  {
    var key := GoalKey(goal);
    if key == "weight_loss" || key == "weightloss" then "weight_loss" else "diabetes"
  }

  lemma WeightLossKey()
    ensures GoalKey(Some("weight_loss")) == "weight_loss"
  {
    LowerOfLowercase("weight_loss");
    ReplaceAbsent("weight_loss", '-', '_');
  }

  lemma DiabetesKey()
    ensures GoalKey(Some("diabetes")) == "diabetes"
  {
    LowerOfLowercase("diabetes");
    ReplaceAbsent("diabetes", '-', '_');
  }

  /** Normalising a normalised goal changes nothing. */
  lemma NormalizeGoalIdempotent(goal: Option<string>)
    ensures NormalizeGoal(Some(NormalizeGoal(goal))) == NormalizeGoal(goal)
  {
    if NormalizeGoal(goal) == "weight_loss" {
      WeightLossKey();
    } else {
      DiabetesKey();
    }
  }

  /** Letter case does not matter. */
  lemma NormalizeGoalIgnoresCase(goal: string)
    ensures NormalizeGoal(Some(Lower(goal))) == NormalizeGoal(Some(goal))
  {
    LowerIdempotent(goal);
  }

  /** A hyphen and an underscore are interchangeable. */
  lemma NormalizeGoalIgnoresHyphen(goal: string)
    ensures NormalizeGoal(Some(ReplaceChar(goal, '-', '_'))) == NormalizeGoal(Some(goal))
  {
    assert GoalKey(Some(ReplaceChar(goal, '-', '_'))) == GoalKey(Some(goal));
  }

  /** Three spellings of the weight-loss goal. */
  lemma WeightLossSpellings()
    ensures NormalizeGoal(Some("Weight-Loss")) == "weight_loss"
    ensures NormalizeGoal(Some("weightloss")) == "weight_loss"
    ensures NormalizeGoal(Some("WEIGHT_LOSS")) == "weight_loss"
  {
    assert GoalKey(Some("Weight-Loss")) == "weight_loss" by {
      assert Lower("Weight-Loss") == "weight-loss" by {
        assert LowerChar('W') == 'w' && LowerChar('L') == 'l';
      }
    }
    assert GoalKey(Some("weightloss")) == "weightloss" by {
      LowerOfLowercase("weightloss");
      ReplaceAbsent("weightloss", '-', '_');
    }
    assert GoalKey(Some("WEIGHT_LOSS")) == "weight_loss" by {
      assert Lower("WEIGHT_LOSS") == "weight_loss" by {
        assert LowerChar('W') == 'w' && LowerChar('E') == 'e' && LowerChar('I') == 'i';
        assert LowerChar('G') == 'g' && LowerChar('H') == 'h' && LowerChar('T') == 't';
        assert LowerChar('L') == 'l' && LowerChar('O') == 'o' && LowerChar('S') == 's';
      }
      ReplaceAbsent("weight_loss", '-', '_');
    }
  }

  // ---------------------------------------------------------------------
  // Daily needs of a request
  // ---------------------------------------------------------------------

  /** The body of a POST /plan request. */
  datatype ProfileInput = ProfileInput(
    userId: string, age: int, weight: real, height: real,
    gender: string, activityLevel: string, goal: string)

  /** The goal passed to the needs calculator for a condition. */
  function NeedsGoal(condition: string): string {
    if condition == "weight_loss" then "weight_loss" else "maintenance"
  }

  /** The needs computed for a request, from its normalised goal. */
  function ComputeNeeds(p: ProfileInput): Needs {
    CalculateNutrition(p.age, p.weight, p.height, p.gender, p.activityLevel,
                       NeedsGoal(NormalizeGoal(Some(p.goal))))
  }

  /**
   * A weight-loss request gets the 500 kcal deficit; every other request,
   * diabetes included, is computed for maintenance, without a deficit.
   */
  lemma NeedsFollowCondition(p: ProfileInput)
    ensures var tdee := Bmr(p.age, p.weight, p.height, p.gender) * ActivityFactor(p.activityLevel);
      DailyCalories(p.age, p.weight, p.height, p.gender, p.activityLevel, NeedsGoal(NormalizeGoal(Some(p.goal))))
        == if NormalizeGoal(Some(p.goal)) == "weight_loss" then tdee - 500.0 else tdee
  {
    WeightLossDeficit(p.age, p.weight, p.height, p.gender, p.activityLevel, "maintenance");
  }

  // ---------------------------------------------------------------------
  // Profile comparison
  // ---------------------------------------------------------------------

  /** A profile as the `str()` forms of its values, by key. */
  type Fields = map<string, string>

  /** The keys compared, in the order they are compared. */
  const CoreKeys: seq<string> := ["age", "weight", "height", "gender", "activity_level", "goal"]

  /** `str(d.get(k, ""))`: a missing key reads as "". */
  function Field(m: Fields, k: string): string {
    if k in m then m[k] else ""
  }

  /** `str(d.get(k, "")).strip()`. */
  function StrippedField(m: Fields, k: string): string {
    Strip(Field(m, k))
  }

  /** Key `k` agrees once both sides are stripped. */
  predicate Matches(stored: Fields, current: Fields, k: string) {
    StrippedField(stored, k) == StrippedField(current, k)
  }

  /** Every key of `keys` agrees. */
  predicate SameOn(stored: Fields, current: Fields, keys: seq<string>) {
    keys == [] || (SameOn(stored, current, keys[..|keys| - 1]) && Matches(stored, current, keys[|keys| - 1]))
  }

  /** SameOn holds exactly when each key agrees. */
  lemma {:induction false} SameOnEvery(stored: Fields, current: Fields, keys: seq<string>)
    ensures SameOn(stored, current, keys) <==> forall i :: 0 <= i < |keys| ==> Matches(stored, current, keys[i])
  {
    if keys != [] {
      var init := keys[..|keys| - 1];
      SameOnEvery(stored, current, init);
      assert forall i :: 0 <= i < |init| ==> init[i] == keys[i];
    }
  }

  /** One disagreeing key is enough. */
  lemma SameOnStops(stored: Fields, current: Fields, keys: seq<string>, i: nat)
    requires i < |keys| && !Matches(stored, current, keys[i])
    ensures !SameOn(stored, current, keys)
  {
    SameOnEvery(stored, current, keys);
  }

  /** Agreeing on the first `i` keys and on key `i` is agreeing on the first `i + 1`. */
  lemma SameOnExtend(stored: Fields, current: Fields, keys: seq<string>, i: nat)
    requires i < |keys| && SameOn(stored, current, keys[..i]) && Matches(stored, current, keys[i])
    ensures SameOn(stored, current, keys[..i + 1])
  {
    assert keys[..i + 1][..i] == keys[..i];
  }

  /** The stored profile counts as the submitted one: every core key agrees. */
  predicate SameProfile(stored: Fields, current: Fields) {
    SameOn(stored, current, CoreKeys)
  }

  /**
   * The submitted profile as a map of `str()` forms; how Python prints an
   * int or a float is a parameter.
   */
  function ProfileFields(p: ProfileInput, showInt: int -> string, showReal: real -> string): (m: Fields)
    ensures forall k :: k in CoreKeys ==> k in m
    ensures "user_id" in m && m["user_id"] == p.userId
    ensures "gender" in m && m["gender"] == p.gender
    ensures "activity_level" in m && m["activity_level"] == p.activityLevel
    ensures "goal" in m && m["goal"] == p.goal
  {
    map["user_id" := p.userId, "age" := showInt(p.age), "weight" := showReal(p.weight),
        "height" := showReal(p.height), "gender" := p.gender,
        "activity_level" := p.activityLevel, "goal" := p.goal]
  }

  /**
   * The comparison loop: the keys in order, stopping at the first mismatch.
   * `compared` is how many keys were looked at.
   */
  method CompareProfiles(stored: Fields, current: Fields, keys: seq<string>) returns (same: bool, compared: nat)
    ensures same <==> SameOn(stored, current, keys)
    ensures compared <= |keys|
    ensures same ==> compared == |keys|
    ensures !same ==>
      && 1 <= compared
      && SameOn(stored, current, keys[..compared - 1])
      && !Matches(stored, current, keys[compared - 1])
  {
    same := true;
    compared := 0;
    for i := 0 to |keys|
      invariant same && compared == i
      invariant SameOn(stored, current, keys[..i])
    {
      compared := compared + 1;
      var a := StrippedField(stored, keys[i]);
      var b := StrippedField(current, keys[i]);
      if a != b {
        same := false;
        SameOnStops(stored, current, keys, i);
        break;
      }
      SameOnExtend(stored, current, keys, i);
    }
    if same {
      assert keys[..|keys|] == keys;
    }
  }

  /** The user id is not a core key. */
  lemma UserIdNotCore()
    ensures "user_id" !in CoreKeys
  {
    forall i | 0 <= i < |CoreKeys| ensures |CoreKeys[i]| != |"user_id"| {
    }
  }

  /** A key outside `keys` plays no part in SameOn. */
  lemma {:induction false} SameOnIgnores(stored: Fields, current: Fields, keys: seq<string>, k: string, v1: string, v2: string)
    requires k !in keys
    ensures SameOn(stored[k := v1], current[k := v2], keys) <==> SameOn(stored, current, keys)
  {
    if keys != [] {
      var init := keys[..|keys| - 1];
      assert keys[|keys| - 1] in keys;
      assert forall x :: x in init ==> x in keys;
      SameOnIgnores(stored, current, init, k, v1, v2);
    }
  }

  /** The user id is not compared: changing it on either side changes nothing. */
  lemma UserIdIgnored(stored: Fields, current: Fields, id1: string, id2: string)
    ensures SameProfile(stored["user_id" := id1], current["user_id" := id2]) <==> SameProfile(stored, current)
  {
    UserIdNotCore();
    SameOnIgnores(stored, current, CoreKeys, "user_id", id1, id2);
  }

  /** A missing key compares equal to a blank one. */
  lemma MissingMatchesBlank(stored: Fields, current: Fields, k: string)
    requires k !in stored && k in current && forall i :: 0 <= i < |current[k]| ==> IsSpace(current[k][i])
    ensures Matches(stored, current, k)
  {
    StripBlank(current[k]);
  }

  // ---------------------------------------------------------------------
  // The cached plan
  // ---------------------------------------------------------------------

  /** A field of a stored document: absent, stored as null, or present. */
  datatype Stored<T> = Missing | Null | Present(value: T)

  /** The stored plan document of a user. */
  datatype PlanDoc = PlanDoc(plan: Stored<seq<PlanRow>>, needs: Stored<Needs>)

  /** The JSON body of a successful response. */
  datatype PlanResponse = PlanResponse(needs: Needs, plan: seq<PlanRow>)

  /**
   * Why the route answers with HTTP 500: a cached plan stored as null (its
   * length is taken while logging), or a plan that could not be drawn.
   */
  datatype ServerError = NullCachedPlan | PlanFailed(cause: PlanError)

  /** The answer built from a stored plan document. */
  function CachedResponse(doc: PlanDoc, computed: Needs): (r: Result<PlanResponse, ServerError>)
    ensures r.Err? <==> doc.plan.Null?
    ensures r.Ok? ==> r.value.plan == (if doc.plan.Present? then doc.plan.value else [])
    ensures r.Ok? ==> r.value.needs == (if doc.needs.Present? then doc.needs.value else computed)
  {
    match doc.plan
    case Null => Err(NullCachedPlan)
    case Missing => Ok(PlanResponse(if doc.needs.Present? then doc.needs.value else computed, []))
    case Present(plan) => Ok(PlanResponse(if doc.needs.Present? then doc.needs.value else computed, plan))
  }

  /** Stored needs win over freshly computed ones: the fresh needs then play no part. */
  lemma StoredNeedsWin(doc: PlanDoc, computed1: Needs, computed2: Needs)
    requires doc.needs.Present?
    ensures CachedResponse(doc, computed1) == CachedResponse(doc, computed2)
  {
  }

  /** An empty stored document answers with the fresh needs and an empty plan. */
  lemma EmptyDocFallback(computed: Needs)
    ensures CachedResponse(PlanDoc(Missing, Missing), computed) == Ok(PlanResponse(computed, []))
    ensures CachedResponse(PlanDoc(Missing, Null), computed) == Ok(PlanResponse(computed, []))
  {
  }

  /** The cache answers when a profile is stored, matches, and a plan document exists. */
  predicate CacheHit(storedProfile: Option<Fields>, storedPlan: Option<PlanDoc>, current: Fields) {
    storedProfile.Some? && SameProfile(storedProfile.value, current) && storedPlan.Some?
  }

  /**
   * POST /plan. `storedProfile` and `storedPlan` are the user's documents
   * as read from the store (None when absent); `raw` is the food table the
   * service loaded; `draw` is the random source of the plan generator.
   */
  method GeneratePlan(p: ProfileInput, showInt: int -> string, showReal: real -> string,
                      storedProfile: Option<Fields>, storedPlan: Option<PlanDoc>,
                      raw: Catalog<CatalogRow>, draw: nat -> nat)
    returns (r: Result<PlanResponse, ServerError>)
    ensures var current := ProfileFields(p, showInt, showReal);
      CacheHit(storedProfile, storedPlan, current) ==> r == CachedResponse(storedPlan.value, ComputeNeeds(p))
    ensures var current := ProfileFields(p, showInt, showReal);
      var ranked := Rank(PrepareDataset(raw), ComputeNeeds(p), NormalizeGoal(Some(p.goal)));
      !CacheHit(storedProfile, storedPlan, current) ==>
        && (r.Ok? <==> ranked != [])
        && (r.Err? ==> r.error == PlanFailed(EmptyPool("Breakfast")))
        && (r.Ok? ==> r.value.needs == ComputeNeeds(p) && |r.value.plan| == 4 * PlanDays
                      && FollowsPools(r.value.plan, ranked, draw))
  {
    var condition := NormalizeGoal(Some(p.goal));
    var current := ProfileFields(p, showInt, showReal);
    var needs := ComputeNeeds(p);
    if storedProfile.Some? {
      var same, _ := CompareProfiles(storedProfile.value, current, CoreKeys);
      if same && storedPlan.Some? {
        return CachedResponse(storedPlan.value, needs);
      }
    }
    var df := PrepareDataset(raw);
    var generated := Generate30DayPlan(df, needs, condition, draw);
    if generated.Err? {
      return Err(PlanFailed(generated.error));
    }
    return Ok(PlanResponse(needs, generated.value.0));
  }
}
