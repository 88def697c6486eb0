/**
 * The fixed tables of the bot (src/index.ts): the menu labels a user may
 * answer with, the step norm per activity level, the calorie factor per
 * goal, the recipe text per meal, and the calorie and water formulas.
 */
module Tables {
  import opened Wrappers

  // ---------------------------------------------------------------------
  // Consultation menu
  // ---------------------------------------------------------------------

  /** The menu choice that starts the calories / water / steps questionnaire. */
  const MetricsChoice: string := "КБЖУ + вода + активность"
  /** The menu choice that opens the recipe branch. */
  const RecipesChoice: string := "ПП рецепты"

  // ---------------------------------------------------------------------
  // Activity levels and their step norms
  // ---------------------------------------------------------------------

  datatype ActivityLevel = Low | Medium | High

  /** The enum's string value, which is also the keyboard label. */
  function ActivityLabel(a: ActivityLevel): string {
    match a
    case Low => "низкий"
    case Medium => "средний"
    case High => "высокий"
  }

  /** The handler's three-way `===` test on the activity answer. */
  function ParseActivity(text: string): (r: Option<ActivityLevel>)
    ensures r.Some? ==> ActivityLabel(r.value) == text
  {
    if text == ActivityLabel(Low) then Some(Low)
    else if text == ActivityLabel(Medium) then Some(Medium)
    else if text == ActivityLabel(High) then Some(High)
    else None
  }

  /** Exactly the three labels are accepted, each as its own level. */
  lemma ParseActivityExact(text: string, a: ActivityLevel)
    ensures ParseActivity(text) == Some(a) <==> text == ActivityLabel(a)
  {
  }

  /** STEP_NORMS / getStepNorm: daily steps for an activity level. */
  function StepNorm(a: ActivityLevel): int {
    match a
    case Low => 5000
    case Medium => 8000
    case High => 10000
  }

  lemma StepNormTable()
    ensures StepNorm(Low) == 5000 && StepNorm(Medium) == 8000 && StepNorm(High) == 10000
  {
  }

  // ---------------------------------------------------------------------
  // Goals and their calorie factors
  // ---------------------------------------------------------------------

  datatype Goal = Lose | Gain | Maintain

  function GoalLabel(g: Goal): string {
    match g
    case Lose => "похудеть"
    case Gain => "набрать массу"
    case Maintain => "просто узнать норму"
  }

  /** The handler's three-way `===` test on the goal answer. */
  function ParseGoal(text: string): (r: Option<Goal>)
    ensures r.Some? ==> GoalLabel(r.value) == text
  {
    if text == GoalLabel(Lose) then Some(Lose)
    else if text == GoalLabel(Gain) then Some(Gain)
    else if text == GoalLabel(Maintain) then Some(Maintain)
    else None
  }

  lemma ParseGoalExact(text: string, g: Goal)
    ensures ParseGoal(text) == Some(g) <==> text == GoalLabel(g)
  {
  }

  /** CALORIE_FACTORS: the multiplier applied to the base estimate. */
  function CalorieFactor(g: Goal): real {
    match g
    case Lose => 0.85
    case Gain => 1.15
    case Maintain => 1.00
  }

  lemma CalorieFactorTable()
    ensures CalorieFactor(Lose) == 0.85 && CalorieFactor(Gain) == 1.15 && CalorieFactor(Maintain) == 1.0
  {
  }

  // ---------------------------------------------------------------------
  // Calorie and water formulas, over exact reals
  // ---------------------------------------------------------------------

  /** Math.round: the nearest integer, halves rounded up. */
  function RoundHalfUp(x: real): (r: int)
    ensures x - 0.5 < r as real <= x + 0.5
  {
    (x + 0.5).Floor
  }

  /** calculateCalories: the Mifflin-St Jeor estimate scaled by the goal's factor. */
  function Calories(weight: real, height: real, age: real, factor: real): (r: int)
    ensures var exact := (10.0 * weight + 6.25 * height - 5.0 * age - 161.0) * factor;
            exact - 0.5 < r as real <= exact + 0.5
  {
    RoundHalfUp((10.0 * weight + 6.25 * height - 5.0 * age - 161.0) * factor)
  }

  /**
   * calculateWaterIntake: litres per day, 0.03 per kilogram, kept to one
   * decimal place as toFixed(1) does (halves away from zero).
   */
  function WaterLitres(weight: real): (r: real)
    ensures (r * 10.0).Floor as real == r * 10.0
    ensures -0.05 <= r - weight * 0.03 <= 0.05
    ensures var x := weight * 0.03;
            (r - x == 0.05 || r - x == -0.05) ==> (if x >= 0.0 then r > x else r < x)
  {
    var x := weight * 0.03;
    var n := if x < 0.0 then -RoundHalfUp(-x * 10.0) else RoundHalfUp(x * 10.0);
    assert x * 10.0 - 0.5 <= n as real <= x * 10.0 + 0.5;
    assert x >= 0.0 ==> x * 10.0 - 0.5 < n as real;
    assert x < 0.0 ==> n as real < x * 10.0 + 0.5;
    var r := n as real / 10.0;
    assert r * 10.0 == n as real;
    assert (n as real).Floor == n;
    r
  }

  /** The worked example: 70 kg, 170 cm, 30 years, no goal adjustment. */
  lemma ExampleNorms()
    ensures Calories(70.0, 170.0, 30.0, CalorieFactor(Maintain)) == 1452
    ensures WaterLitres(70.0) == 2.1
    ensures StepNorm(High) == 10000
  {
  }

  // ---------------------------------------------------------------------
  // Meals and recipe texts
  // ---------------------------------------------------------------------

  datatype MealType = Breakfast | Lunch | Dinner | Snack | Drinks

  function MealLabel(m: MealType): string {
    match m
    case Breakfast => "Завтрак"
    case Lunch => "Обед"
    case Dinner => "Ужин"
    case Snack => "Перекус"
    case Drinks => "Напитки"
  }

  /** The handler's `includes` test against the five meal labels. */
  function ParseMeal(text: string): (r: Option<MealType>)
    ensures r.Some? ==> MealLabel(r.value) == text
  {
    if text == MealLabel(Breakfast) then Some(Breakfast)
    else if text == MealLabel(Lunch) then Some(Lunch)
    else if text == MealLabel(Dinner) then Some(Dinner)
    else if text == MealLabel(Snack) then Some(Snack)
    else if text == MealLabel(Drinks) then Some(Drinks)
    else None
  }

  lemma ParseMealExact(text: string, m: MealType)
    ensures ParseMeal(text) == Some(m) <==> text == MealLabel(m)
  {
  }

  const OatmealRecipe: string := "Овсяная каша с ягодами: 40 г овсянки, 200 мл воды, 50 г ягод, 1 ч.л. мёда."
  const CurdDessertRecipe: string := "Творожный десерт: 100 г творога, 1 ч.л. мёда, 30 г ягод."
  /** The switch's default text, a request to pick a meal. */
  const ChooseMealText: string := "Выберите прием пищи."

  /**
   * sendRecipeStub's switch on the raw meal label: the snack gets the curd
   * dessert, every other meal the oatmeal, anything else the default text.
   */
  function RecipeFor(kind: string): (r: string)
    ensures r == ChooseMealText <==> ParseMeal(kind).None?
    ensures r == CurdDessertRecipe <==> ParseMeal(kind) == Some(Snack)
    ensures r == OatmealRecipe <==> ParseMeal(kind).Some? && ParseMeal(kind) != Some(Snack)
  {
    if kind == "Завтрак" then OatmealRecipe
    else if kind == "Обед" then OatmealRecipe
    else if kind == "Ужин" then OatmealRecipe
    else if kind == "Перекус" then CurdDessertRecipe
    else if kind == "Напитки" then OatmealRecipe
    else ChooseMealText
  }
}
