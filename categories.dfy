/** The goal category table and its lookups. */
module Categories {
  import opened Models

  datatype CategoryConfig = CategoryConfig(id: GoalCategory, nameKey: string, icon: string, color: string, gradient: string)

  const GoalCategories: seq<CategoryConfig> :=
    [WorkCategory, PersonalCategory, HealthCategory, LearningCategory, OtherCategory]

  const WorkCategory: CategoryConfig := CategoryConfig(Work, "categories.work", "💼", "blue", "from-blue-50 to-indigo-50")
  const PersonalCategory: CategoryConfig := CategoryConfig(Personal, "categories.personal", "🌱", "green", "from-green-50 to-emerald-50")
  const HealthCategory: CategoryConfig := CategoryConfig(Health, "categories.health", "💪", "red", "from-red-50 to-pink-50")
  const LearningCategory: CategoryConfig := CategoryConfig(Learning, "categories.learning", "📚", "purple", "from-purple-50 to-violet-50")

  /** The last entry, and the fallback of the lookup. */
  const OtherCategory: CategoryConfig := CategoryConfig(Other, "categories.other", "✨", "gray", "from-gray-50 to-slate-50")

  /** `table.find(cat => cat.id === category)`, as the index of the first match. */
  function FindCategory(table: seq<CategoryConfig>, category: GoalCategory): (r: int)
    ensures -1 <= r < |table|
    ensures r >= 0 ==> table[r].id == category && forall j :: 0 <= j < r ==> table[j].id != category
    ensures r == -1 ==> forall j :: 0 <= j < |table| ==> table[j].id != category
  {
    if |table| == 0 then -1
    else if table[0].id == category then 0
    else
      var rest := FindCategory(table[1..], category);
      if rest == -1 then -1 else rest + 1
  }

  /** The matching entry, else the 'other' entry at index 4. */
  function GetCategoryConfig(category: GoalCategory): (c: CategoryConfig)
    ensures c in GoalCategories
    ensures c.id == category
  {
    PositionOf(category);
    var i := FindCategory(GoalCategories, category);
    if i >= 0 then GoalCategories[i]
    else assert false; OtherCategory
  }

  /** Where each category sits in the table. */
  function Position(category: GoalCategory): nat
  {
    match category
    case Work => 0
    case Personal => 1
    case Health => 2
    case Learning => 3
    case Other => 4
  }

  lemma PositionOf(category: GoalCategory)
    ensures Position(category) < |GoalCategories|
    ensures GoalCategories[Position(category)].id == category
  {
  }

  /** Every category appears exactly once, so the fallback is never taken. */
  lemma CategoriesUnique()
    ensures forall i, j :: 0 <= i < j < |GoalCategories| ==> GoalCategories[i].id != GoalCategories[j].id
    ensures forall c: GoalCategory :: Position(c) < |GoalCategories| && GoalCategories[Position(c)].id == c
    ensures GoalCategories[4] == OtherCategory
  {
    forall c: GoalCategory
      ensures Position(c) < |GoalCategories| && GoalCategories[Position(c)].id == c
    {
      PositionOf(c);
    }
  }

  /** The entry the lookup returns is the table's entry for the category,
      wherever that sits. */
  lemma ConfigIsEntry(category: GoalCategory)
    ensures forall i :: 0 <= i < |GoalCategories| && GoalCategories[i].id == category ==>
              GetCategoryConfig(category) == GoalCategories[i]
  {
    CategoriesUnique();
    var k := FindCategory(GoalCategories, category);
    PositionOf(category);
    assert k >= 0 && GetCategoryConfig(category) == GoalCategories[k];
  }

  /** The colour of the table's entry for the category; the fallback's gray
      belongs to 'other' alone. */
  function GetCategoryColor(category: GoalCategory): (color: string)
    ensures forall i :: 0 <= i < |GoalCategories| && GoalCategories[i].id == category ==>
              color == GoalCategories[i].color
    ensures color == OtherCategory.color <==> category == Other
  {
    ConfigIsEntry(category);
    PositionOf(category);
    GetCategoryConfig(category).color
  }

  /** The icon of the table's entry for the category; no other entry shows
      the same icon. */
  function GetCategoryIcon(category: GoalCategory): (icon: string)
    ensures forall i :: 0 <= i < |GoalCategories| && GoalCategories[i].id == category ==>
              icon == GoalCategories[i].icon
    ensures forall i :: 0 <= i < |GoalCategories| && GoalCategories[i].icon == icon ==>
              GoalCategories[i].id == category
  {
    ConfigIsEntry(category);
    PositionOf(category);
    GetCategoryConfig(category).icon
  }

  /** The gradient of the table's entry for the category. */
  function GetCategoryGradient(category: GoalCategory): (gradient: string)
    ensures forall i :: 0 <= i < |GoalCategories| && GoalCategories[i].id == category ==>
              gradient == GoalCategories[i].gradient
  {
    ConfigIsEntry(category);
    GetCategoryConfig(category).gradient
  }

  lemma CategoryExamples()
    ensures GetCategoryColor(Work) == "blue"
    ensures GetCategoryIcon(Personal) == "🌱"
    ensures GetCategoryGradient(Other) == "from-gray-50 to-slate-50"
  {
    CategoriesUnique();
  }
}
