/** The resource library page (frontend/app/resources/page.tsx): the
    catalogue, the search-and-category filter over it, the small label
    mappings, and the page's filter state with its clear-filters button. */
module Resources {
  import opened Wrappers
  import opened Text
  import opened Lists

  /** One catalogue record; `kind` is the record's `type` field. */
  datatype Resource = Resource(
    id: int,
    title: string,
    description: string,
    category: string,
    kind: string,
    readTime: string,
    difficulty: string,
    tags: seq<string>,
    image: string)

  const Placeholder := "/placeholder.svg?height=200&width=300"

  // The eight records of the catalogue.
  const BreathingExercise := Resource(1, "5-Minute Breathing Exercise for Instant Calm",
      "Learn a simple breathing technique that can help reduce stress and anxiety in just 5 minutes.",
      "stress", "exercise", "5 min", "Beginner", ["breathing", "quick-relief", "anxiety"], Placeholder)
  const AnxietyGuide := Resource(2, "Understanding Anxiety: A Comprehensive Guide",
      "Explore what anxiety is, its common symptoms, and evidence-based strategies for managing it.",
      "anxiety", "article", "12 min", "Intermediate", ["education", "coping-strategies", "mental-health"], Placeholder)
  const MuscleRelaxation := Resource(3, "Progressive Muscle Relaxation Technique",
      "A step-by-step guide to progressive muscle relaxation for better sleep and stress relief.",
      "sleep", "exercise", "15 min", "Beginner", ["relaxation", "sleep", "body-awareness"], Placeholder)
  const HealthyCommunication := Resource(4, "Building Healthy Communication in Relationships",
      "Learn effective communication strategies to strengthen your personal and professional relationships.",
      "relationships", "article", "10 min", "Intermediate", ["communication", "relationships", "social-skills"], Placeholder)
  const MorningRoutine := Resource(5, "Mindful Morning Routine for Mental Clarity",
      "Start your day with intention using this 10-minute mindful morning routine.",
      "stress", "exercise", "10 min", "Beginner", ["mindfulness", "morning-routine", "productivity"], Placeholder)
  const SleepHygiene := Resource(6, "Sleep Hygiene: Creating the Perfect Sleep Environment",
      "Discover how to optimize your bedroom and bedtime routine for better quality sleep.",
      "sleep", "article", "8 min", "Beginner", ["sleep-hygiene", "environment", "wellness"], Placeholder)
  const CbtTechniques := Resource(7, "Cognitive Behavioral Techniques for Negative Thoughts",
      "Learn practical CBT techniques to identify and challenge negative thought patterns.",
      "anxiety", "article", "15 min", "Advanced", ["CBT", "thought-patterns", "self-help"], Placeholder)
  const HealthyBoundaries := Resource(8, "Setting Healthy Boundaries in Personal Relationships",
      "A practical guide to establishing and maintaining healthy boundaries with family and friends.",
      "relationships", "article", "12 min", "Intermediate", ["boundaries", "self-care", "relationships"], Placeholder)

  /** The catalogue in page order. */
  const Catalog := [BreathingExercise, AnxietyGuide, MuscleRelaxation, HealthyCommunication,
                    MorningRoutine, SleepHygiene, CbtTechniques, HealthyBoundaries]

  /** One button of the category bar. */
  datatype Category = Category(id: string, name: string)

  const Categories := [
    Category("all", "All Resources"),
    Category("stress", "Stress Management"),
    Category("anxiety", "Anxiety Support"),
    Category("sleep", "Sleep & Rest"),
    Category("relationships", "Relationships")
  ]

  // ---------------------------------------------------------------------------
  // The filter

  /** Some tag, lower-cased, contains t. */
  predicate SomeTagContains(tags: seq<string>, t: string)
  {
    exists k :: 0 <= k < |tags| && Contains(Lower(tags[k]), t)
  }

  /** matchesSearch: the lower-cased term occurs in the lower-cased title,
      description or some tag. */
  predicate MatchesSearch(r: Resource, searchTerm: string)
  {
    var t := Lower(searchTerm);
    Contains(Lower(r.title), t) || Contains(Lower(r.description), t) || SomeTagContains(r.tags, t)
  }

  /** matchesCategory: "all", or the record's own category. */
  predicate MatchesCategory(r: Resource, selectedCategory: string)
  {
    selectedCategory == "all" || r.category == selectedCategory
  }

  /** The predicate handed to `resources.filter`. */
  function Keeps(searchTerm: string, selectedCategory: string): Resource -> bool
  {
    (r: Resource) => MatchesSearch(r, searchTerm) && MatchesCategory(r, selectedCategory)
  }

  /** filteredResources over a catalogue. */
  function FilterCatalog(catalog: seq<Resource>, searchTerm: string, selectedCategory: string): (rs: seq<Resource>)
    ensures |rs| <= |catalog|
    ensures forall k :: 0 <= k < |rs| ==> MatchesSearch(rs[k], searchTerm) && MatchesCategory(rs[k], selectedCategory)
  {
    Filter(catalog, Keeps(searchTerm, selectedCategory))
  }

  /** filteredResources on this page's catalogue. */
  function FilteredResources(searchTerm: string, selectedCategory: string): seq<Resource>
  {
    FilterCatalog(Catalog, searchTerm, selectedCategory)
  }

  /** The result is a subsequence of the catalogue in catalogue order: the
      k-th result is the record at the k-th of an increasing list of
      positions, and a position is listed exactly when its record passes
      both tests. */
  lemma FilterIsOrderedSubsequence(catalog: seq<Resource>, searchTerm: string, selectedCategory: string)
    ensures var rs, idx := FilterCatalog(catalog, searchTerm, selectedCategory),
                          FilterIndices(catalog, Keeps(searchTerm, selectedCategory));
      && |idx| == |rs|
      && (forall k :: 0 <= k < |rs| ==> 0 <= idx[k] < |catalog| && rs[k] == catalog[idx[k]])
      && (forall k, l :: 0 <= k < l < |idx| ==> idx[k] < idx[l])
      && (forall i :: 0 <= i < |catalog| ==>
            (i in idx <==> MatchesSearch(catalog[i], searchTerm) && MatchesCategory(catalog[i], selectedCategory)))
  {
    var p := Keeps(searchTerm, selectedCategory);
    FilterKeepsOrder(catalog, p);
    FilterIndicesExact(catalog, p);
  }

  /** A record appears in the result as often as in the catalogue when it
      passes both tests, and not at all otherwise. */
  lemma FilterMembership(catalog: seq<Resource>, searchTerm: string, selectedCategory: string, r: Resource)
    ensures multiset(FilterCatalog(catalog, searchTerm, selectedCategory))[r] ==
      if MatchesSearch(r, searchTerm) && MatchesCategory(r, selectedCategory) then multiset(catalog)[r] else 0
  {
    FilterCounts(catalog, Keeps(searchTerm, selectedCategory), r);
  }

  /** With "all" the category places no restriction: the result is the
      search alone. */
  lemma AllCategoryIsSearchOnly(catalog: seq<Resource>, searchTerm: string, r: Resource)
    ensures multiset(FilterCatalog(catalog, searchTerm, "all"))[r] ==
      if MatchesSearch(r, searchTerm) then multiset(catalog)[r] else 0
  {
    FilterMembership(catalog, searchTerm, "all", r);
  }

  /** The empty term matches every record. */
  lemma EmptyTermMatches(r: Resource)
    ensures MatchesSearch(r, "")
  {
    assert Lower("") == "";
    ContainsEmpty(Lower(r.title));
  }

  /** ("", "all") gives back the whole catalogue. */
  lemma NoFilterKeepsAll(catalog: seq<Resource>)
    ensures FilterCatalog(catalog, "", "all") == catalog
  {
    forall k | 0 <= k < |catalog|
      ensures Keeps("", "all")(catalog[k])
    {
      EmptyTermMatches(catalog[k]);
    }
    FilterAll(catalog, Keeps("", "all"));
  }

  /** The search ignores the case of the term: two terms that lower-case
      alike select the same records. */
  lemma SearchIgnoresTermCase(catalog: seq<Resource>, a: string, b: string, category: string)
    requires Lower(a) == Lower(b)
    ensures forall r :: MatchesSearch(r, a) <==> MatchesSearch(r, b)
    ensures FilterCatalog(catalog, a, category) == FilterCatalog(catalog, b, category)
  {
    FilterSame(catalog, Keeps(a, category), Keeps(b, category));
  }

  /** The search ignores the case of the record too: "BREATHING" finds the
      breathing exercise through its tag "breathing". */
  lemma UpperCaseTermFindsBreathing()
    ensures MatchesSearch(BreathingExercise, "BREATHING")
  {
    LowerBreathing();
    assert StartsWith("breathing", "breathing");
    TagMatches(BreathingExercise, "BREATHING", 0);
  }

  lemma LowerBreathing()
    ensures Lower("BREATHING") == "breathing" && Lower("breathing") == "breathing"
  {
    var t := Lower("BREATHING");
    assert forall i :: 0 <= i < 9 ==> t[i] == LowerChar("BREATHING"[i]);
    var u := "breathing";
    assert forall i :: 0 <= i < |u| ==> !('A' <= u[i] <= 'Z');
    LowerNoUpper(u);
  }

  /** A tag that contains the lower-cased term makes the record match. */
  lemma TagMatches(r: Resource, searchTerm: string, k: nat)
    requires k < |r.tags| && Contains(Lower(r.tags[k]), Lower(searchTerm))
    ensures MatchesSearch(r, searchTerm)
  {
  }

  // ---------------------------------------------------------------------------
  // Label mappings

  const BeginnerStyle := "bg-green-100 text-green-800 dark:bg-green-900/30 dark:text-green-300"
  const IntermediateStyle := "bg-yellow-100 text-yellow-800 dark:bg-yellow-900/30 dark:text-yellow-300"
  const AdvancedStyle := "bg-red-100 text-red-800 dark:bg-red-900/30 dark:text-red-300"
  const DefaultStyle := "bg-gray-100 text-gray-800 dark:bg-gray-900/30 dark:text-gray-300"

  /** The three difficulty levels the switch names. */
  const Levels := ["Beginner", "Intermediate", "Advanced"]

  /** getDifficultyColor: total, with the gray default for anything else. */
  function DifficultyColor(difficulty: string): (style: string)
    ensures style in [BeginnerStyle, IntermediateStyle, AdvancedStyle, DefaultStyle]
    ensures style == DefaultStyle <==> difficulty !in Levels
  {
    match difficulty
    case "Beginner" => BeginnerStyle
    case "Intermediate" => IntermediateStyle
    case "Advanced" => AdvancedStyle
    case _ => DefaultStyle
  }

  /** Different levels get different styles. */
  lemma DifficultyColorsDistinct(a: string, b: string)
    requires a in Levels && b in Levels && a != b
    ensures DifficultyColor(a) != DifficultyColor(b)
  {
  }

  datatype Icon = Heart | BookOpen

  /** getTypeIcon: Heart exactly for exercises. */
  function TypeIcon(kind: string): (icon: Icon)
    ensures icon == Heart <==> kind == "exercise"
    ensures icon == BookOpen <==> kind != "exercise"
  {
    if kind == "exercise" then Heart else BookOpen
  }

  /** The plural suffix of "Showing n resource{s}". */
  function PluralSuffix(count: nat): (s: string)
    ensures s == "s" <==> count != 1
    ensures s == "" <==> count == 1
  {
    if count != 1 then "s" else ""
  }

  /** The result-count line: "Showing ", the count's digits, which read back
      as the count, then " resource" and the suffix. */
  function CountText(count: nat): (line: string)
    ensures var tail := " resource" + PluralSuffix(count);
      && |line| > 8 + |tail|
      && line[..8] == "Showing "
      && line[|line| - |tail|..] == tail
      && var digits := line[8..|line| - |tail|];
         && (forall k :: 0 <= k < |digits| ==> '0' <= digits[k] <= '9')
         && (digits[0] == '0' ==> |digits| == 1)
         && DecimalValue(digits) == count
  {
    var line := "Showing " + Decimal(count) + " resource" + PluralSuffix(count);
    var tail := " resource" + PluralSuffix(count);
    assert line == ("Showing " + Decimal(count)) + tail;
    assert line[8..|line| - |tail|] == Decimal(count);
    assert line[|line| - |tail|..] == tail;
    DecimalRoundTrip(count);
    line
  }

  /** The count line ends with "resources" exactly when the count is not 1. */
  lemma CountTextPlural(count: nat)
    ensures var line := CountText(count);
      |line| >= 9 && (line[|line| - 9..] == "resources" <==> count != 1)
  {
    var line := CountText(count);
    if count == 1 {
      assert line == "Showing 1 resource";
    }
  }

  // ---------------------------------------------------------------------------
  // Page state

  /** The filter state of the page over its catalogue. */
  class ResourcesPage {
    const catalog: seq<Resource>
    var searchTerm: string
    var selectedCategory: string
    var selectedResource: Option<Resource>

    /** The initial state: no term, every category, no record open. */
    constructor ()
      ensures catalog == Catalog
      ensures searchTerm == "" && selectedCategory == "all" && selectedResource == None
    {
      catalog := Catalog;
      searchTerm := "";
      selectedCategory := "all";
      selectedResource := None;
    }

    /** The records the page lists. */
    function Filtered(): seq<Resource>
      reads this
    {
      FilterCatalog(catalog, searchTerm, selectedCategory)
    }

    /** Typing in the search box. */
    method SetSearchTerm(term: string)
      modifies this
      ensures searchTerm == term
      ensures selectedCategory == old(selectedCategory) && selectedResource == old(selectedResource)
    {
      searchTerm := term;
    }

    /** Pressing a category button. */
    method SetSelectedCategory(id: string)
      modifies this
      ensures selectedCategory == id
      ensures searchTerm == old(searchTerm) && selectedResource == old(selectedResource)
    {
      selectedCategory := id;
    }

    /** The clear-filters button: no term and every category, so the whole
        catalogue is listed again. */
    method ClearFilters()
      modifies this
      ensures searchTerm == "" && selectedCategory == "all"
      ensures selectedResource == old(selectedResource)
      ensures Filtered() == catalog
    {
      searchTerm := "";
      selectedCategory := "all";
      NoFilterKeepsAll(catalog);
    }
  }
}
