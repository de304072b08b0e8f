/** The food-log schema: enums, required fields and defaults. */
module FoodLogModel {
  import opened Common

  datatype MealType = Breakfast | Lunch | Dinner | Snack
  datatype Source = Groq | Mock | Manual
  datatype Confidence = High | Medium | Low

  function MealTypeName(m: MealType): string
  {
    match m
    case Breakfast => "breakfast"
    case Lunch => "lunch"
    case Dinner => "dinner"
    case Snack => "snack"
  }

  /** The enum validator of `mealType`. */
  function ParseMealType(s: string): (r: Option<MealType>)
    ensures r.Some? ==> MealTypeName(r.value) == s
    ensures r.None? <==> (forall m: MealType :: MealTypeName(m) != s)
  {
    if s == "breakfast" then Some(Breakfast)
    else if s == "lunch" then Some(Lunch)
    else if s == "dinner" then Some(Dinner)
    else if s == "snack" then Some(Snack)
    else None
  }

  datatype FoodLog = FoodLog(
    id: Id,
    user: Id,
    food: string,
    calories: real,
    protein: real,
    carbs: real,
    fat: real,
    confidence: Option<Confidence>,
    details: Option<string>,
    source: Source,
    imageFilename: Option<string>,
    mealType: MealType,
    loggedAt: int,
    createdAt: int)

  /** The macronutrients a creation request supplies. */
  datatype Macros = Macros(calories: real, protein: real, carbs: real, fat: real)

  /** `FoodLog.create(...)` with the fields the manual-log route sets; every
      other field takes its schema default. `None` is a ValidationError:
      an empty `food` or a `mealType` outside the enum. */
  function CreateDocument(id: Id, user: Id, food: string, m: Macros, mealType: string, source: Source, now: int)
    : (r: Option<FoodLog>)
    ensures r.Some? <==> food != "" && ParseMealType(mealType).Some?
    ensures r.Some? ==> && r.value.id == id && r.value.user == user && r.value.food == food
                        && MealTypeName(r.value.mealType) == mealType && r.value.source == source
                        && r.value.calories == m.calories && r.value.protein == m.protein
                        && r.value.carbs == m.carbs && r.value.fat == m.fat
                        && r.value.confidence == None && r.value.details == None
                        && r.value.imageFilename == None
                        && r.value.loggedAt == now && r.value.createdAt == now
  {
    var meal := ParseMealType(mealType);
    if food == "" || meal.None? then None
    else Some(FoodLog(id, user, food, m.calories, m.protein, m.carbs, m.fat,
                      None, None, source, None, meal.value, now, now))
  }
}
