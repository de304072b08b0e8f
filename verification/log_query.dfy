/** The food-log queries the listing and summary routes share: the
    inclusive `loggedAt` window built from the `from`/`to` query parameters,
    the sort key, and the meal totals of a `$group` stage. */
module LogQuery {
  import opened Common
  import opened FoodLogModel

  /** Inclusive bounds on `loggedAt`, in milliseconds; an absent bound does
      not constrain. */
  datatype Window = Window(from: Option<int>, to: Option<int>)

  predicate InWindow(l: FoodLog, w: Window)
  {
    && (w.from.None? || w.from.value <= l.loggedAt)
    && (w.to.None? || l.loggedAt <= w.to.value)
  }

  /** `new Date(s)` for a query parameter: `Some` instant or `None` for an
      Invalid Date. */
  type DateParser = string -> Option<int>

  /** Builds the window from the raw `from`/`to` parameters. An empty
      parameter is falsy and adds no bound; a parameter that is not a date
      makes the query's cast fail (`None`, answered with 500). */
  function ParseWindow(from: string, to: string, parseDate: DateParser): (r: Option<Window>)
    ensures r.Some? <==> (from == "" || parseDate(from).Some?) && (to == "" || parseDate(to).Some?)
    ensures r.Some? ==> (r.value.from.Some? <==> from != "") && (r.value.to.Some? <==> to != "")
    ensures r.Some? && from != "" ==> r.value.from == parseDate(from)
    ensures r.Some? && to != "" ==> r.value.to == parseDate(to)
  {
    var f := if from == "" then None else parseDate(from);
    var t := if to == "" then None else parseDate(to);
    if (from != "" && f.None?) || (to != "" && t.None?) then None
    else Some(Window(f, t))
  }

  /** Without parameters the window admits every log. */
  lemma OpenWindow(l: FoodLog, parseDate: DateParser)
    ensures ParseWindow("", "", parseDate) == Some(Window(None, None))
    ensures InWindow(l, Window(None, None))
  {
  }

  /** The sort key of `sort({ loggedAt: -1 })`. */
  function LoggedAt(l: FoodLog): int
  {
    l.loggedAt
  }

  /** The fields a `$group` stage sums, with the number of meals. */
  datatype Totals = Totals(meals: nat, calories: real, protein: real, carbs: real, fat: real)

  /** The default the routes answer when the aggregation matches nothing. */
  const NoMeals := Totals(0, 0.0, 0.0, 0.0, 0.0)

  function Plus(a: Totals, b: Totals): Totals
  {
    Totals(a.meals + b.meals, a.calories + b.calories, a.protein + b.protein,
           a.carbs + b.carbs, a.fat + b.fat)
  }

  function One(l: FoodLog): Totals
  {
    Totals(1, l.calories, l.protein, l.carbs, l.fat)
  }

  /** `{ $sum: 1 }` and `{ $sum: "$field" }` over the matched logs, in exact
      arithmetic. */
  function Sum(logs: seq<FoodLog>): (t: Totals)
    ensures t.meals == |logs|
    ensures |logs| == 0 ==> t == NoMeals
  {
    if |logs| == 0 then NoMeals else Plus(Sum(logs[..|logs| - 1]), One(logs[|logs| - 1]))
  }

  /** Summing is compositional, so the totals do not depend on how the
      matched logs are split. */
  lemma {:induction false} SumAppend(a: seq<FoodLog>, b: seq<FoodLog>)
    ensures Sum(a + b) == Plus(Sum(a), Sum(b))
    decreases |b|
  {
    if |b| == 0 {
      assert a + b == a;
    } else {
      var b' := b[..|b| - 1];
      assert (a + b)[..|a + b| - 1] == a + b';
      assert (a + b)[|a + b| - 1] == b[|b| - 1];
      SumAppend(a, b');
    }
  }
}
