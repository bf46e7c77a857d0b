/** The plain records the planner works on: challenges, categories and the
    application state that holds one list of each. */
module Types {

  datatype Option<+T> = None | Some(value: T)

  /** A calendar date, as the number of days since 1970-01-01 (UTC).
      The planner keeps dates as `YYYY-MM-DD` strings; two such strings are
      equal exactly when their day numbers are, and they sort the same way. */
  type Day = int

  datatype Challenge = Challenge(
    id: string,
    title: string,
    categoryId: string,
    date: Day,
    completed: bool,
    resourceLink: Option<string>)

  /** A challenge as the forms hand it over, before an id is assigned. */
  datatype ChallengeDraft = ChallengeDraft(
    title: string,
    categoryId: string,
    date: Day,
    completed: bool,
    resourceLink: Option<string>)
  {
    function WithId(id: string): Challenge
    {
      Challenge(id, title, categoryId, date, completed, resourceLink)
    }
  }

  datatype Category = Category(id: string, name: string, color: string)

  /** A category as the forms hand it over, before an id is assigned. */
  datatype CategoryDraft = CategoryDraft(name: string, color: string)
  {
    function WithId(id: string): Category
    {
      Category(id, name, color)
    }
  }

  datatype AppState = AppState(challenges: seq<Challenge>, categories: seq<Category>)

  /** Key projections, passed to the generic list helpers. */
  function ChallengeId(c: Challenge): string { c.id }
  function CategoryId(c: Category): string { c.id }

  /** Day number of a proleptic Gregorian calendar date (days from civil),
      which is what parsing `YYYY-MM-DD` as midnight UTC and dividing the
      milliseconds by one day yields. */
  function DayOf(year: int, month: int, day: int): Day
    requires 1 <= month <= 12 && 1 <= day <= 31
  {
    var y := if month <= 2 then year - 1 else year;
    var era := y / 400;
    var yoe := y - era * 400;
    var mp := if month > 2 then month - 3 else month + 9;
    var doy := (153 * mp + 2) / 5 + day - 1;
    var doe := yoe * 365 + yoe / 4 - yoe / 100 + doy;
    era * 146097 + doe - 719468
  }
}
