/** The category codes of the diary and their display names
    (activity_dashboard.py:30-39), looked up with a default of "Unknown"
    (activity_dashboard.py:191). */
module Categories {

  const ActivityCategories: map<string, string> := map[
    "P" := "Productive",
    "R" := "Routine",
    "E" := "Eat",
    "S" := "Social",
    "W" := "Workout",
    "F" := "Fun",
    "GOD" := "God",
    "LO" := "Sleep"]

  /** ACTIVITY_CATEGORIES.get(code, 'Unknown'). No category is itself named
      "Unknown", so the default is returned exactly for codes outside the table. */
  function CategoryName(code: string): (name: string)
    ensures name == "Unknown" <==> code !in ActivityCategories
    ensures code in ActivityCategories ==> name == ActivityCategories[code]
  {
    if code in ActivityCategories then ActivityCategories[code] else "Unknown"
  }

  /** The eight known codes, and the two names the dashboard leans on. */
  lemma KnownCodes(code: string)
    ensures CategoryName(code) != "Unknown" <==> code in {"P", "R", "E", "S", "W", "F", "GOD", "LO"}
    ensures CategoryName("LO") == "Sleep" && CategoryName("lo") == "Unknown"
  {
  }
}
