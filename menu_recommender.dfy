/**
 * The rule-based recommendation engine: a quiz answer map is classified into a
 * menu category, a drink is picked from that category, and the recommendation
 * record is assembled with atmospheric text, tags and a food pairing.
 *
 * Every `Math.random()` draw of the TypeScript code is a parameter here: a draw of
 * `floor(random * n)` is a natural number below `n`.
 */
module MenuRecommender {
  import opened Wrappers
  import opened Text

  /** Quiz answers: question id to chosen option; unanswered questions are absent. */
  type Answers = map<string, string>

  /** `answers[question] === option`; an absent answer is `undefined` and matches nothing. */
  predicate Says(answers: Answers, question: string, option: string) {
    question in answers && answers[question] == option
  }

  datatype Category = ExoticAndExciting | CreatureFeatures | FeatsOfStrength | Beers | Wines | ConcessionStand
  {
    /** The key of the category in the menu document. */
    function Key(): string {
      match this
      case ExoticAndExciting => "Exotic & Exciting"
      case CreatureFeatures => "Creature Features"
      case FeatsOfStrength => "Feats of Strength"
      case Beers => "Beers"
      case Wines => "Wines"
      case ConcessionStand => "Concession Stand"
    }

    /** One of the three cocktail sections of the menu. */
    predicate IsCocktailSection() {
      ExoticAndExciting? || CreatureFeatures? || FeatsOfStrength?
    }
  }

  /** A menu entry; `ingredients` and `description` are optional in the menu document. */
  datatype MenuItem = MenuItem(name: string, price: real, ingredients: Option<seq<string>>, description: Option<string>)

  /** The menu document: one list of items under each of the six category keys. */
  datatype MenuData = MenuData(
    exoticAndExciting: seq<MenuItem>,
    creatureFeatures: seq<MenuItem>,
    featsOfStrength: seq<MenuItem>,
    beers: seq<MenuItem>,
    wines: seq<MenuItem>,
    concessionStand: seq<MenuItem>)
  {
    /** `menuData[category]`. */
    function Items(c: Category): seq<MenuItem> {
      match c
      case ExoticAndExciting => exoticAndExciting
      case CreatureFeatures => creatureFeatures
      case FeatsOfStrength => featsOfStrength
      case Beers => beers
      case Wines => wines
      case ConcessionStand => concessionStand
    }
  }

  datatype FoodPairing = FoodPairing(name: string, price: real, description: string, pairingReason: string)

  datatype Recommendation = Recommendation(
    names: seq<string>,
    selectedName: string,
    ingredients: seq<string>,
    story: string,
    whisper: string,
    flavorProfile: string,
    tags: seq<string>,
    foodPairing: Option<FoodPairing>)

  // ---------------------------------------------------------------------------
  // Category classifier: a priority-ordered decision list
  // ---------------------------------------------------------------------------

  /** One answer test of a classification rule: `answers[question] === option`. */
  datatype Test = Test(question: string, option: string)

  /** Some test of `tests` holds of `answers`. */
  predicate Triggered(answers: Answers, tests: seq<Test>) {
    exists i :: 0 <= i < |tests| && Says(answers, tests[i].question, tests[i].option)
  }

  /** A rule of the decision list: if any of its tests holds, its category is chosen. */
  datatype Rule = Rule(tests: seq<Test>, category: Category)

  const ExoticTests: seq<Test> :=
    [Test("first_sip", "adventure"), Test("week_feeling", "surprising"),
     Test("spicy_reaction", "embrace"), Test("drink_complexity", "bold")]

  const CreatureTests: seq<Test> :=
    [Test("evening_mood", "shadows"), Test("week_feeling", "chaotic"),
     Test("first_sip", "mystery"), Test("drink_complexity", "mysterious")]

  const FeatsTests: seq<Test> :=
    [Test("first_sip", "elegance"), Test("week_feeling", "contemplative"),
     Test("evening_mood", "brightness"), Test("drink_complexity", "refined"),
     Test("drink_complexity", "theatrical")]

  /** The classifier's rules, highest priority first. */
  const CategoryRules: seq<Rule> :=
    [Rule(ExoticTests, ExoticAndExciting), Rule(CreatureTests, CreatureFeatures), Rule(FeatsTests, FeatsOfStrength)]

  /** The first rule that fires decides; `fallback` when none does. */
  function FirstMatch(rules: seq<Rule>, answers: Answers, fallback: Category): (c: Category)
    ensures forall i :: 0 <= i < |rules| && Triggered(answers, rules[i].tests)
              && (forall j :: 0 <= j < i ==> !Triggered(answers, rules[j].tests))
              ==> c == rules[i].category
    ensures (forall i :: 0 <= i < |rules| ==> !Triggered(answers, rules[i].tests)) ==> c == fallback
    decreases |rules|
  {
    if rules == [] then fallback
    else if Triggered(answers, rules[0].tests) then rules[0].category
    else
      var c := FirstMatch(rules[1..], answers, fallback);
      assert forall i :: 1 <= i < |rules| ==> rules[i] == rules[1..][i - 1];
      c
  }

  /** `determineDrinkCategory`. */
  function DetermineDrinkCategory(answers: Answers): (c: Category)
    ensures c.IsCocktailSection()
    ensures c.Key() in {"Exotic & Exciting", "Creature Features", "Feats of Strength"}
    ensures Triggered(answers, ExoticTests) ==> c == ExoticAndExciting
    ensures !Triggered(answers, ExoticTests) && Triggered(answers, CreatureTests) ==> c == CreatureFeatures
    ensures !Triggered(answers, ExoticTests) && !Triggered(answers, CreatureTests) && Triggered(answers, FeatsTests) ==>
              c == FeatsOfStrength
    ensures !Triggered(answers, ExoticTests) && !Triggered(answers, CreatureTests) && !Triggered(answers, FeatsTests) ==>
              c == ExoticAndExciting
  {
    if Says(answers, "first_sip", "adventure") || Says(answers, "week_feeling", "surprising")
       || Says(answers, "spicy_reaction", "embrace") || Says(answers, "drink_complexity", "bold")
    then
      assert Triggered(answers, ExoticTests) by {
        if Says(answers, "first_sip", "adventure") { assert ExoticTests[0] == Test("first_sip", "adventure"); }
        else if Says(answers, "week_feeling", "surprising") { assert ExoticTests[1] == Test("week_feeling", "surprising"); }
        else if Says(answers, "spicy_reaction", "embrace") { assert ExoticTests[2] == Test("spicy_reaction", "embrace"); }
        else { assert ExoticTests[3] == Test("drink_complexity", "bold"); }
      }
      ExoticAndExciting
    else if Says(answers, "evening_mood", "shadows") || Says(answers, "week_feeling", "chaotic")
       || Says(answers, "first_sip", "mystery") || Says(answers, "drink_complexity", "mysterious")
    then
      assert Triggered(answers, CreatureTests) by {
        if Says(answers, "evening_mood", "shadows") { assert CreatureTests[0] == Test("evening_mood", "shadows"); }
        else if Says(answers, "week_feeling", "chaotic") { assert CreatureTests[1] == Test("week_feeling", "chaotic"); }
        else if Says(answers, "first_sip", "mystery") { assert CreatureTests[2] == Test("first_sip", "mystery"); }
        else { assert CreatureTests[3] == Test("drink_complexity", "mysterious"); }
      }
      CreatureFeatures
    else if Says(answers, "first_sip", "elegance") || Says(answers, "week_feeling", "contemplative")
       || Says(answers, "evening_mood", "brightness") || Says(answers, "drink_complexity", "refined")
       || Says(answers, "drink_complexity", "theatrical")
    then
      assert Triggered(answers, FeatsTests) by {
        if Says(answers, "first_sip", "elegance") { assert FeatsTests[0] == Test("first_sip", "elegance"); }
        else if Says(answers, "week_feeling", "contemplative") { assert FeatsTests[1] == Test("week_feeling", "contemplative"); }
        else if Says(answers, "evening_mood", "brightness") { assert FeatsTests[2] == Test("evening_mood", "brightness"); }
        else if Says(answers, "drink_complexity", "refined") { assert FeatsTests[3] == Test("drink_complexity", "refined"); }
        else { assert FeatsTests[4] == Test("drink_complexity", "theatrical"); }
      }
      FeatsOfStrength
    else
      ExoticAndExciting
  }

  /** The classifier is exactly the decision list `CategoryRules` with an "Exotic & Exciting" default. */
  lemma CategoryIsFirstMatch(answers: Answers)
    ensures DetermineDrinkCategory(answers) == FirstMatch(CategoryRules, answers, ExoticAndExciting)
  {
    var rules := CategoryRules;
    assert rules[0].tests == ExoticTests && rules[1].tests == CreatureTests && rules[2].tests == FeatsTests;
  }

  /** The soda answer never influences the category. */
  lemma CategoryIgnoresSodas(answers: Answers, sodas: string)
    ensures DetermineDrinkCategory(answers["sodas" := sodas]) == DetermineDrinkCategory(answers)
  {
  }

  // ---------------------------------------------------------------------------
  // Drink selector
  // ---------------------------------------------------------------------------

  /** The drink served when the chosen category has no drinks. */
  const FallbackDrink: MenuItem := MenuItem(
    "The Archivist's Lament", 14.0,
    Some(["2 oz Woodford Reserve", "0.5 oz Luxardo Maraschino", "0.75 oz fresh lemon juice"]),
    None)

  /** Position of the preferred drink in a non-empty list of `count` drinks. */
  function PreferredIndex(count: nat, answers: Answers): (i: nat)
    requires count > 0
    ensures i < count
    ensures Says(answers, "sodas", "none") || Says(answers, "sodas", "few") ==> i == 0
    ensures !(Says(answers, "sodas", "none") || Says(answers, "sodas", "few"))
            && (Says(answers, "spicy_reaction", "embrace") || Says(answers, "evening_mood", "edge"))
            ==> i == if count > 1 then 1 else 0
    ensures !(Says(answers, "sodas", "none") || Says(answers, "sodas", "few"))
            && !(Says(answers, "spicy_reaction", "embrace") || Says(answers, "evening_mood", "edge"))
            ==> i == count - 1
  {
    if Says(answers, "sodas", "none") || Says(answers, "sodas", "few") then 0
    else if Says(answers, "spicy_reaction", "embrace") || Says(answers, "evening_mood", "edge") then
      if 1 < count - 1 then 1 else count - 1
    else count - 1
  }

  /** `selectDrinkFromCategory`: never undefined, and always a drink of the list when it has one. */
  function SelectDrinkFromCategory(drinks: seq<MenuItem>, answers: Answers): (d: MenuItem)
    ensures |drinks| == 0 ==>
              d.name == "The Archivist's Lament" && d.price == 14.0 && d.description.None?
              && d.ingredients == Some(["2 oz Woodford Reserve", "0.5 oz Luxardo Maraschino", "0.75 oz fresh lemon juice"])
    ensures |drinks| > 0 ==> d in drinks && d == drinks[PreferredIndex(|drinks|, answers)]
  {
    if |drinks| == 0 then FallbackDrink
    else drinks[PreferredIndex(|drinks|, answers)]
  }

  /** With a single drink on the list, every guest gets that drink. */
  lemma SingleDrinkAlwaysChosen(drinks: seq<MenuItem>, answers: Answers)
    requires |drinks| == 1
    ensures SelectDrinkFromCategory(drinks, answers) == drinks[0]
  {
  }

  /** Only the answers to sodas, spicy_reaction and evening_mood influence the choice. */
  lemma SelectionReadsThreeAnswers(drinks: seq<MenuItem>, a: Answers, b: Answers)
    requires forall q :: q in ["sodas", "spicy_reaction", "evening_mood"] ==> (q in a <==> q in b) && (q in a ==> a[q] == b[q])
    ensures SelectDrinkFromCategory(drinks, a) == SelectDrinkFromCategory(drinks, b)
  {
    assert "sodas" in ["sodas", "spicy_reaction", "evening_mood"];
    assert "spicy_reaction" in ["sodas", "spicy_reaction", "evening_mood"];
    assert "evening_mood" in ["sodas", "spicy_reaction", "evening_mood"];
  }

  // ---------------------------------------------------------------------------
  // Alternative names
  // ---------------------------------------------------------------------------

  const BaseNames: seq<string> :=
    ["The Velvet Confession", "Midnight's Borrowed Truth", "The Curator's Last Dance",
     "Shadow Between Raindrops", "The Archivist's Secret"]

  /** `generateAlternativeNames`: the real name first, then the first four fixed names. */
  function GenerateAlternativeNames(drinkName: string): (names: seq<string>)
    ensures |names| == 5 && names[0] == drinkName
    ensures forall i :: 1 <= i < 5 ==> names[i] == BaseNames[i - 1]
    ensures "The Archivist's Secret" in names ==> drinkName == "The Archivist's Secret"
  {
    [drinkName] + BaseNames[..4]
  }

  // ---------------------------------------------------------------------------
  // Atmosphere generator
  // ---------------------------------------------------------------------------

  const Staff: seq<string> := ["Matt", "Steve", "Nick", "Krimson"]

  /** The three story templates, each split around the staff name and the Peter motif. */
  const StoryOpenings: seq<string> := ["", "This drink emerged from ", ""]
  const StoryMiddles: seq<string> := [
    " discovered this recipe scrawled on a napkin left behind by a circus performer who claimed to know the future. They only make it when the moon is waning, insisting the shadows help them measure each pour. ",
    "'s experiments with ingredients found in a trunk beneath the bar. The previous owner left cryptic notes about its preparation, warning that it should only be served to those who understand the weight of secrets. ",
    " crafted this libation after finding an old photograph tucked inside a vintage cocktail book. The person in the picture bore an uncanny resemblance to tonight's first customer. They swear the drink tastes different depending on who's watching them prepare it. "]
  const StoryEndings: seq<string> := [
    " was supposed to help document these mysterious recipes, but they haven't been seen in weeks.",
    " once claimed they could taste tomorrow in it, but that was before they disappeared.",
    " used to say the ingredients whispered their own names, but no one's heard from them lately."]

  const Whispers: seq<string> := [
    "The ice cubes have been humming old circus melodies all evening.",
    "Someone left a fortune from a cookie that never existed on the bar tonight.",
    "The garnish keeps rearranging itself when no one's looking.",
    "A patron from 1952 just ordered the same drink at table seven."]

  const FlavorProfiles: seq<string> := [
    "Complex layers unfold like secrets shared in hushed tones, each sip revealing another mystery.",
    "Bold and unapologetic, this drink cuts through pretense with surprising depth.",
    "Delicate and nuanced, like overhearing a conversation meant for someone else.",
    "Rich and contemplative, inviting you to lose yourself in its depths."]

  /** Story template `template` told about staff member `staffName`. */
  function Story(template: nat, staffName: string): (s: string)
    requires template < 3
    ensures Includes(s, staffName) && Includes(s, "Peter")
  {
    var head := StoryOpenings[template] + staffName + StoryMiddles[template];
    var s := head + "Peter" + StoryEndings[template];
    assert OccursAt(s, staffName, |StoryOpenings[template]|) by {
      assert s[|StoryOpenings[template]|..|StoryOpenings[template]| + |staffName|] == staffName;
    }
    assert OccursAt(s, "Peter", |head|) by {
      assert s[|head|..|head| + 5] == "Peter";
    }
    s
  }

  datatype Atmosphere = Atmosphere(story: string, whisper: string, flavorProfile: string)

  /** The four random draws of `generateAtmosphere`, in the order the TypeScript code makes them. */
  datatype AtmosphereDraws = AtmosphereDraws(staff: nat, story: nat, whisper: nat, flavorProfile: nat)

  predicate ValidAtmosphereDraws(d: AtmosphereDraws) {
    d.staff < |Staff| && d.story < 3 && d.whisper < |Whispers| && d.flavorProfile < |FlavorProfiles|
  }

  /** `generateAtmosphere`: story, whisper and flavour text drawn from the fixed pools. */
  function GenerateAtmosphere(drink: MenuItem, answers: Answers, d: AtmosphereDraws): (a: Atmosphere)
    requires ValidAtmosphereDraws(d)
    ensures Includes(a.story, Staff[d.staff]) && Includes(a.story, "Peter")
    ensures a.whisper in Whispers && a.flavorProfile in FlavorProfiles
  {
    var selectedStaff := Staff[d.staff];
    Atmosphere(Story(d.story, selectedStaff), Whispers[d.whisper], FlavorProfiles[d.flavorProfile])
  }

  /** The atmosphere text is independent of the drink and of the answers. */
  lemma AtmosphereIgnoresDrinkAndAnswers(d1: MenuItem, a1: Answers, d2: MenuItem, a2: Answers, d: AtmosphereDraws)
    requires ValidAtmosphereDraws(d)
    ensures GenerateAtmosphere(d1, a1, d) == GenerateAtmosphere(d2, a2, d)
  {
  }

  // ---------------------------------------------------------------------------
  // Food pairing
  // ---------------------------------------------------------------------------

  const PairingReasons: seq<string> := [
    "The salt crystals enhance the drink's mysterious undertones.",
    "The sweetness creates a perfect counterpoint to the cocktail's complexity.",
    "This classic pairing elevates both elements to theatrical heights.",
    "The textures play against each other like performers in a surreal dance."]

  /** `item.name.toLowerCase().includes(keyword)`. */
  predicate NameMentions(item: MenuItem, keyword: string) {
    Includes(ToLower(item.name), keyword)
  }

  /** `items.find(...)` from position `from` on, as an index. */
  function FindFrom(items: seq<MenuItem>, keyword: string, from: nat): (r: Option<nat>)
    ensures r.Some? ==> from <= r.value < |items| && NameMentions(items[r.value], keyword)
    ensures r.Some? ==> forall j :: from <= j < r.value ==> !NameMentions(items[j], keyword)
    ensures r.None? ==> forall j :: from <= j < |items| ==> !NameMentions(items[j], keyword)
    decreases |items| - from
  {
    if from >= |items| then None
    else if NameMentions(items[from], keyword) then Some(from)
    else FindFrom(items, keyword, from + 1)
  }

  /**
   * `items.find(item => item.name.toLowerCase().includes(keyword)) || items[0]`:
   * the first item whose name mentions the keyword, or the first item when none does.
   */
  function KeywordChoice(items: seq<MenuItem>, keyword: string): (i: nat)
    requires |items| > 0
    ensures i < |items|
    ensures (exists j :: 0 <= j < |items| && NameMentions(items[j], keyword)) ==>
              NameMentions(items[i], keyword) && forall j :: 0 <= j < i ==> !NameMentions(items[j], keyword)
    ensures (forall j :: 0 <= j < |items| ==> !NameMentions(items[j], keyword)) ==> i == 0
  {
    match FindFrom(items, keyword, 0)
    case Some(i) => i
    case None => 0
  }

  /** The guest wants an elegant first sip: popcorn. */
  predicate WantsPopcorn(answers: Answers) {
    Says(answers, "first_sip", "elegance")
  }

  /** An adventurous guest: peanuts. */
  predicate WantsPeanuts(answers: Answers) {
    Says(answers, "spicy_reaction", "embrace") || Says(answers, "first_sip", "adventure")
  }

  /** A contemplative or mysterious guest: cotton candy. */
  predicate WantsCottonCandy(answers: Answers) {
    Says(answers, "week_feeling", "contemplative") || Says(answers, "first_sip", "mystery")
  }

  /** Which concession item is paired, given a uniform draw for the final, random branch. */
  function PairingIndex(items: seq<MenuItem>, answers: Answers, foodDraw: nat): (i: nat)
    requires foodDraw < |items|
    ensures i < |items|
    ensures WantsPopcorn(answers) ==> i == KeywordChoice(items, "popcorn")
    ensures !WantsPopcorn(answers) && WantsPeanuts(answers) ==> i == KeywordChoice(items, "peanuts")
    ensures !WantsPopcorn(answers) && !WantsPeanuts(answers) && WantsCottonCandy(answers) ==>
              i == KeywordChoice(items, "cotton candy")
    ensures !WantsPopcorn(answers) && !WantsPeanuts(answers) && !WantsCottonCandy(answers) ==> i == foodDraw
  {
    if WantsPopcorn(answers) then KeywordChoice(items, "popcorn")
    else if WantsPeanuts(answers) then KeywordChoice(items, "peanuts")
    else if WantsCottonCandy(answers) then KeywordChoice(items, "cotton candy")
    else foodDraw
  }

  /** The pairing shows `item`'s name and price, and its description or "". */
  predicate PresentsItem(p: FoodPairing, item: MenuItem) {
    p.name == item.name && p.price == item.price && p.description == item.description.GetOr("")
  }

  /** `selectFoodPairing`: absent exactly for an empty concession list, else built from one of its items. */
  function SelectFoodPairing(items: seq<MenuItem>, drink: MenuItem, answers: Answers, foodDraw: nat, reasonDraw: nat)
    : (p: Option<FoodPairing>)
    requires |items| == 0 || foodDraw < |items|
    requires reasonDraw < |PairingReasons|
    ensures p.None? <==> |items| == 0
    ensures p.Some? ==> exists i :: 0 <= i < |items| && PresentsItem(p.value, items[i])
    ensures p.Some? ==> PresentsItem(p.value, items[PairingIndex(items, answers, foodDraw)])
    ensures p.Some? ==> p.value.pairingReason in PairingReasons
  {
    if |items| == 0 then None
    else
      var selectedFood := items[PairingIndex(items, answers, foodDraw)];
      Some(FoodPairing(selectedFood.name, selectedFood.price, selectedFood.description.GetOr(""), PairingReasons[reasonDraw]))
  }

  // ---------------------------------------------------------------------------
  // Tags
  // ---------------------------------------------------------------------------

  const BaseTags: seq<string> := ["circus_mystery", "atmospheric", "crafted"]

  /** The tags pushed after the base tags, one per matching answer, in push order. */
  function PersonalityTags(answers: Answers): seq<string> {
    (if Says(answers, "first_sip", "elegance") then ["refined"] else [])
    + (if Says(answers, "evening_mood", "shadows") then ["mysterious"] else [])
    + (if Says(answers, "spicy_reaction", "embrace") then ["bold"] else [])
    + (if Says(answers, "week_feeling", "contemplative") then ["thoughtful"] else [])
  }

  /** `generateTags`: the pushed tags land after the three base tags and are cut off by `slice(0, 3)`. */
  function GenerateTags(drink: MenuItem, answers: Answers): (tags: seq<string>)
    ensures tags == ["circus_mystery", "atmospheric", "crafted"]
  {
    (BaseTags + PersonalityTags(answers))[..3]
  }

  /** No personality-based tag ever reaches the result. */
  lemma PersonalityTagsNeverKept(drink: MenuItem, answers: Answers)
    ensures forall t :: t in PersonalityTags(answers) ==> t !in GenerateTags(drink, answers)
  {
  }

  // ---------------------------------------------------------------------------
  // The whole pipeline
  // ---------------------------------------------------------------------------

  /** All random draws of one recommendation. */
  datatype Draws = Draws(atmosphere: AtmosphereDraws, food: nat, pairingReason: nat)

  predicate ValidDraws(d: Draws, concessionCount: nat) {
    ValidAtmosphereDraws(d.atmosphere)
    && (concessionCount == 0 || d.food < concessionCount)
    && d.pairingReason < |PairingReasons|
  }

  /** `recommendDrink`. */
  function RecommendDrink(answers: Answers, menu: MenuData, draws: Draws): (r: Recommendation)
    requires ValidDraws(draws, |menu.concessionStand|)
    ensures |r.names| == 5 && r.names[0] == r.selectedName
    ensures forall i :: 1 <= i < 5 ==> r.names[i] == BaseNames[i - 1]
    ensures var drinks := menu.Items(DetermineDrinkCategory(answers));
            (|drinks| == 0 ==> r.selectedName == "The Archivist's Lament"
                               && r.ingredients == ["2 oz Woodford Reserve", "0.5 oz Luxardo Maraschino", "0.75 oz fresh lemon juice"])
            && (|drinks| > 0 ==> exists i :: 0 <= i < |drinks| && r.selectedName == drinks[i].name
                                                 && r.ingredients == drinks[i].ingredients.GetOr([]))
    ensures var drinks := menu.Items(DetermineDrinkCategory(answers));
            |drinks| > 0 ==> r.selectedName == drinks[PreferredIndex(|drinks|, answers)].name
                             && r.ingredients == drinks[PreferredIndex(|drinks|, answers)].ingredients.GetOr([])
    ensures r.whisper in Whispers && r.flavorProfile in FlavorProfiles && Includes(r.story, "Peter")
    ensures r.tags == ["circus_mystery", "atmospheric", "crafted"]
    ensures r.foodPairing.None? <==> |menu.concessionStand| == 0
    ensures r.foodPairing.Some? ==> exists i :: 0 <= i < |menu.concessionStand|
                                                 && PresentsItem(r.foodPairing.value, menu.concessionStand[i])
    ensures r.foodPairing.Some? ==>
              PresentsItem(r.foodPairing.value, menu.concessionStand[PairingIndex(menu.concessionStand, answers, draws.food)])
  {
    var category := DetermineDrinkCategory(answers);
    var categoryDrinks := menu.Items(category);
    var selectedDrink := SelectDrinkFromCategory(categoryDrinks, answers);
    var atmosphere := GenerateAtmosphere(selectedDrink, answers, draws.atmosphere);
    var foodPairing := SelectFoodPairing(menu.concessionStand, selectedDrink, answers, draws.food, draws.pairingReason);
    Recommendation(
      GenerateAlternativeNames(selectedDrink.name),
      selectedDrink.name,
      selectedDrink.ingredients.GetOr([]),
      atmosphere.story,
      atmosphere.whisper,
      atmosphere.flavorProfile,
      GenerateTags(selectedDrink, answers),
      foodPairing)
  }

  /** The recommended drink never comes from the Beers, Wines or Concession Stand lists. */
  lemma CocktailsOnly(answers: Answers, menu: MenuData, draws: Draws)
    requires ValidDraws(draws, |menu.concessionStand|)
    requires |menu.Items(DetermineDrinkCategory(answers))| > 0
    ensures exists c: Category, i :: c.IsCocktailSection() && 0 <= i < |menu.Items(c)|
              && RecommendDrink(answers, menu, draws).selectedName == menu.Items(c)[i].name
  {
    var c := DetermineDrinkCategory(answers);
    var r := RecommendDrink(answers, menu, draws);
    var i :| 0 <= i < |menu.Items(c)| && r.selectedName == menu.Items(c)[i].name;
  }

  // ---------------------------------------------------------------------------
  // Scenarios
  // ---------------------------------------------------------------------------

  /** An adventurous first sip leads to "Exotic & Exciting". */
  lemma AdventureIsExotic()
    ensures DetermineDrinkCategory(map["first_sip" := "adventure"]) == ExoticAndExciting
  {
  }

  /** A taste for shadows leads to "Creature Features". */
  lemma ShadowsAreCreatures()
    ensures DetermineDrinkCategory(map["evening_mood" := "shadows"]) == CreatureFeatures
  {
    assert Says(map["evening_mood" := "shadows"], "evening_mood", "shadows");
  }

  /** An elegant guest is paired with the popcorn rather than the item listed first. */
  lemma ElegantGuestGetsPopcorn(drink: MenuItem, foodDraw: nat)
    requires foodDraw < 2
    ensures var items := [MenuItem("Other", 6.0, None, None), MenuItem("Popcorn Deluxe", 8.0, None, Some("truffle salt"))];
            SelectFoodPairing(items, drink, map["first_sip" := "elegance"], foodDraw, 0)
              == Some(FoodPairing("Popcorn Deluxe", 8.0, "truffle salt", PairingReasons[0]))
  {
    var items := [MenuItem("Other", 6.0, None, None), MenuItem("Popcorn Deluxe", 8.0, None, Some("truffle salt"))];
    assert ToLower("Popcorn Deluxe") == "popcorn deluxe";
    assert OccursAt(ToLower("Popcorn Deluxe"), "popcorn", 0);
    assert NameMentions(items[1], "popcorn");
    assert !NameMentions(items[0], "popcorn") by {
      forall k: nat ensures !OccursAt(ToLower("Other"), "popcorn", k) {
      }
    }
  }

  /** With no answers at all the guest gets the last "Exotic & Exciting" drink. */
  lemma EmptyAnswersGetLastExoticDrink(menu: MenuData)
    requires |menu.exoticAndExciting| > 0
    ensures DetermineDrinkCategory(map[]) == ExoticAndExciting
    ensures SelectDrinkFromCategory(menu.Items(ExoticAndExciting), map[]) == menu.exoticAndExciting[|menu.exoticAndExciting| - 1]
  {
  }
}
