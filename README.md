# Foxbriar menu recommender, modelled in Dafny

This project models the rule-based drink recommender of a themed bar and two pieces of its
"lore" bookkeeping.

A guest's quiz answers (a partial map from question id to option) are classified into one of
the menu's cocktail sections by a priority-ordered decision list. A drink is then picked from
that section by secondary answers, falling back to a fixed drink when the section is empty.
The recommendation record is assembled from:

- five display names;
- the drink's ingredients;
- story, whisper and flavour text drawn from fixed pools;
- three tags;
- an optional food pairing chosen from the concession stand by keyword.

The lore part covers four things: picking a whisper, finding the tags that recur across
sessions, filling a lore fragment with a tag, and the in-place merge that the lore endpoint's POST handler performs on
the stored tags and whispers.

Files:

- `wrappers.dfy`: `Option`, used for JavaScript's `undefined` and optional fields.
- `text.dfy`: the JavaScript string operations the code relies on: `toLowerCase` (ASCII),
  `indexOf`/`includes`, and `replace` with a string pattern. `replace` rewrites only the first
  occurrence and expands `$$`, `$&`, `` $` `` and `$'` in the replacement.
- `distinct.dfy`: duplicate-free sequences and `[...new Set(s)]`, an order-preserving
  deduplication, with its append, prefix and idempotence laws.
- `menu_recommender.dfy`: `recommendDrink` and its helpers.
- `lore.dfy`: `getRandomWhisper`, `combineTags` and `generateLoreFragment`.
- `lore_route.dfy`: the tag/whisper merge of the POST handler, as a class `LoreStore` whose
  method `Post` updates its two sequence fields.

Every `Math.floor(Math.random() * n)` of the TypeScript code is a natural-number parameter below `n`.
This keeps the surrounding logic deterministic and verifiable.

One behaviour of the TypeScript code is worth knowing. The tag generator pushes personality tags
after its three fixed tags and then keeps only the first three. So the personality tags never
reach a recommendation, whatever the answers; `PersonalityTagsNeverKept` states this.

## Model

| member | source | states |
|---|---|---|
| `MenuRecommender.DetermineDrinkCategory` | src/lib/menu-recommender.ts:61-81 | The category, and its menu key, is always "Exotic & Exciting", "Creature Features" or "Feats of Strength", for every answer map, the empty one included. Any Exotic trigger gives Exotic even when other triggers are present. Otherwise a Creature trigger beats the Feats triggers. Otherwise a Feats trigger gives Feats. With no trigger at all the result is Exotic. |
| `MenuRecommender.FirstMatch` | src/lib/menu-recommender.ts:64-80 | The reference decision list: the category of the lowest-index rule that fires, or the fallback when no rule fires. |
| `MenuRecommender.CategoryIsFirstMatch` | src/lib/menu-recommender.ts:61-81 | The classifier equals the decision list (Exotic tests, then Creature tests, then Feats tests) with an Exotic default, on every answer map. |
| `MenuRecommender.CategoryIgnoresSodas` | src/lib/menu-recommender.ts:62 | The soda answer never changes the category. |
| `MenuRecommender.PreferredIndex` | src/lib/menu-recommender.ts:96-107 | The chosen position is always inside the list. It is 0 for sodas none/few. Otherwise it is min(1, len-1) for spicy=embrace or evening=edge. Otherwise it is len-1. |
| `MenuRecommender.SelectDrinkFromCategory` | src/lib/menu-recommender.ts:83-110 | An empty list gives "The Archivist's Lament", price 14, with exactly its three ingredients, whatever the answers. A non-empty list gives one of its own elements, the one at the preferred position. |
| `MenuRecommender.SingleDrinkAlwaysChosen` | src/lib/menu-recommender.ts:96-109 | A one-drink list yields that drink for every answer map. |
| `MenuRecommender.SelectionReadsThreeAnswers` | src/lib/menu-recommender.ts:93-109 | Two answer maps that agree on sodas, spicy_reaction and evening_mood select the same drink. |
| `MenuRecommender.GenerateAlternativeNames` | src/lib/menu-recommender.ts:112-124 | Five names: the real name first, then the first four fixed names. The fifth fixed name appears only when it is the drink's own name. |
| `MenuRecommender.Story` | src/lib/menu-recommender.ts:131-137 | Every story template mentions the chosen staff member and Peter. |
| `MenuRecommender.GenerateAtmosphere` | src/lib/menu-recommender.ts:127-158 | The story names the drawn staff member and Peter. The whisper and the flavour profile are members of their fixed pools. |
| `MenuRecommender.AtmosphereIgnoresDrinkAndAnswers` | src/lib/menu-recommender.ts:127-157 | Given the same draws, the atmosphere is the same for any drink and any answers. |
| `MenuRecommender.FindFrom` | src/lib/menu-recommender.ts:171 | `find` with the keyword test: a position found mentions the keyword, and no earlier position does. None means no item from the start position on mentions it. |
| `MenuRecommender.KeywordChoice` | src/lib/menu-recommender.ts:171 | The choice is the first item whose lower-cased name contains the keyword. When no item's name does, it is item 0. It is always a valid position. |
| `MenuRecommender.PairingIndex` | src/lib/menu-recommender.ts:166-181 | The rules apply in order: elegance picks popcorn; otherwise embrace/adventure picks peanuts; otherwise contemplative/mystery picks cotton candy. Each rule falls back to item 0. Only the final branch uses the random draw, and it returns the drawn position. The index is always in range. |
| `MenuRecommender.SelectFoodPairing` | src/lib/menu-recommender.ts:160-196 | The pairing is absent if and only if the concession list is empty. Otherwise its name and price are those of a list element, and its description is that element's description or "". The reason comes from the fixed pool. |
| `MenuRecommender.GenerateTags` | src/lib/menu-recommender.ts:198-208 | The result is always exactly ["circus_mystery", "atmospheric", "crafted"]. |
| `MenuRecommender.PersonalityTagsNeverKept` | src/lib/menu-recommender.ts:201-207 | No pushed personality tag ("refined", "mysterious", "bold", "thoughtful") ever survives `slice(0, 3)`. |
| `MenuRecommender.RecommendDrink` | src/lib/menu-recommender.ts:33-59 | `names` has length 5, and its first entry is `selectedName`. The selected name and ingredients are those of the drink at the preferred position of the classified category's list (ingredients default to []). On an empty list they are the fallback drink's name and its three ingredients, exactly. The tags are the three base tags. The food pairing is absent if and only if the concession list is empty. Otherwise it presents the concession item at the pairing position. |
| `MenuRecommender.CocktailsOnly` | src/lib/menu-recommender.ts:35-41 | When the classified section is non-empty, the selected drink comes from it, and so from a cocktail section, never from Beers, Wines or Concession Stand. (When the section is empty, the fallback drink, which belongs to no section, is served instead; this is stated by `RecommendDrink`.) |
| `MenuRecommender.AdventureIsExotic` | src/lib/menu-recommender.ts:65-67 | {first_sip: adventure} is classified "Exotic & Exciting". |
| `MenuRecommender.ShadowsAreCreatures` | src/lib/menu-recommender.ts:70-72 | {evening_mood: shadows} is classified "Creature Features". |
| `MenuRecommender.ElegantGuestGetsPopcorn` | src/lib/menu-recommender.ts:169-171 | An elegant guest is paired with "Popcorn Deluxe" over an item listed before it. |
| `MenuRecommender.EmptyAnswersGetLastExoticDrink` | src/lib/menu-recommender.ts:61-109 | With no answers, the category is Exotic and the last Exotic drink is selected. |
| `Lore.GetRandomWhisper` | src/lib/lore.ts:40-45 | An empty list gives "The bar holds its secrets tonight.". Otherwise the result is an element of the list. |
| `Lore.TagCounts` | src/lib/lore.ts:48-51 | The count map's keys are exactly the input tags, and each count is that tag's number of occurrences. |
| `Lore.Recurring` | src/lib/lore.ts:54-56 | Exactly the listed keys with count above 1 are kept. Distinct keys give a distinct result. |
| `Lore.CombineTags` | src/lib/lore.ts:47-57 | A tag is in the result if and only if it occurs more than once in the input. The result has no duplicates, and every element occurs in the input. |
| `Lore.GenerateLoreFragment` | src/lib/lore.ts:59-74 | An empty tag list gives "The bar remembers all who enter.". Otherwise the result is the chosen fragment with its one `{tag}` placeholder replaced by the chosen tag, whose first "_" became a space. For a tag without `$` the tag appears literally between the fragment's two halves. |
| `Lore.Spaced` | src/lib/lore.ts:73 | `tag.replace('_', ' ')` keeps the length, leaves a tag without "_" unchanged and adds no `$`. |
| `Lore.OnlyFirstUnderscoreReplaced` | src/lib/lore.ts:73 | Only the first underscore of a tag becomes a space; later ones are kept. |
| `Text.IndexOf` | src/lib/menu-recommender.ts:171 | `indexOf`: the position returned is an occurrence with no earlier one. None means no occurrence at all. |
| `Text.ToLower` | src/lib/menu-recommender.ts:171 | Lower-casing keeps the length, maps each character on its own, and leaves no upper-case ASCII letter. |
| `Text.Substitution` | src/lib/lore.ts:73 | A replacement string without `$` stands for itself. |
| `Text.ReplaceFirst` | src/lib/lore.ts:73 | `replace` with a string pattern returns a string without the pattern unchanged. Otherwise it keeps the text before the first occurrence as a prefix and the text after it as a suffix. |
| `Text.ReplaceFirstAt` | src/lib/lore.ts:73 | `replace` with a `$`-free replacement splices it in place of the first occurrence only. |
| `Text.ReplaceFirstAbsent` | src/lib/lore.ts:73 | `replace` leaves a string without the pattern unchanged. |
| `Text.FirstOccurrenceAfter` | src/lib/lore.ts:60-73 | In head + pattern + tail, with the pattern's first character absent from head, the first occurrence is right after head. So each fragment's `{tag}` is the one replaced. |
| `Text.UnderscoreToSpace` | src/lib/lore.ts:73 | Replacing the first "_" by a space keeps the length, and keeps a string without "_" unchanged. It adds no `$`. It rewrites exactly the first underscore. |
| `Distinct.Dedup` | src/app/api/lore/route.ts:31 | `[...new Set(s)]` has no duplicates and holds exactly the values of `s`. |
| `Distinct.DedupOfDistinct` | src/app/api/lore/route.ts:31 | A duplicate-free sequence passes through the Set unchanged. |
| `Distinct.DedupPrefix` | src/app/api/lore/route.ts:31 | Deduplicating `old + new` keeps the deduplicated old tags as a prefix: nothing already stored is removed or reordered. |
| `Distinct.DedupAppend` | src/app/api/lore/route.ts:31 | The merged tags are the distinct old tags followed by the distinct new tags not already present, in first-occurrence order. |
| `Distinct.DedupAbsorbs` | src/app/api/lore/route.ts:31 | Merging the same new tags a second time changes nothing. |
| `LoreRoute.LoreStore.constructor` | src/app/api/lore/route.ts:26-27 | The store starts with the tags and whispers read from the document. |
| `LoreRoute.LoreStore.Post` | src/app/api/lore/route.ts:29-39 | When `tags` is an array, the new tags are the order-preserving deduplication of old tags then new tags. They have no duplicates and contain every old and new tag. A duplicate-free old list is kept as a prefix. Otherwise tags are unchanged. A whisper is appended only if it is a non-empty string not yet present; otherwise whispers are unchanged. Old whispers stay a prefix, and distinct whispers stay distinct. |
| `LoreRoute.RepeatPost` | src/app/api/lore/route.ts:29-39 | Posting the same body twice gives the same store as posting it once. |

## Left out

- File and network I/O are not modelled. This covers `getLoreData` and `addToLore` (fetch) and
  the `GET` handler. It also covers the POST handler's `request.json()`, `readFile`,
  `JSON.parse`, `writeFile` and its 500 responses. Only the in-memory merge is modelled.
- `Math.random` is replaced by a draw parameter bounded by the pool size. Uniformity is not
  modelled.
- `MenuRecommender.RecommendDrink`: requires a food draw below the concession count even in
  branches that never draw. Any value works there.
- The fallback in `menuData[category] || []` is modelled as a plain lookup. The menu is a record with all six lists, and an array (even an empty one) is never
  replaced by `[]`.
- `Text.ToLower`: lower-cases ASCII letters only. Full Unicode `toLowerCase` is not modelled.
- `Lore.CombineTags`: no contract claims an output order. The model lists recurring tags in
  first-occurrence order. This is `Object.entries` order only for tags that are not
  array-index-like strings.
- `Lore.CombineTags`: tags that collide with `Object.prototype` names (such as "constructor"
  or "__proto__") are counted like any other tag. The TypeScript code's plain `{}` accumulator
  treats them differently.
- `LoreRoute.LoreStore.Post`: array elements of the request's `tags` that are not strings are
  not modelled; the incoming tags are a sequence of strings.
- `LoreRoute.LoreStore.Post`: a stored document whose `tags` or `whispers` is missing is not
  modelled. The handler throws and answers 500 only when it reads the missing field: `tags`
  when the request's tags is an array, `whispers` when the request's whisper is a non-empty
  string. Otherwise it writes the document back without that field.
- Prices are JavaScript numbers passed through unchanged and are modelled as `real`.
- The pages, the profile storage, the logo, and the language-model generation path
  (`src/lib/openai.ts`, `src/app/api/generate-cocktail/route.ts`) are not part of this model.
