/**
 * The pure lore helpers: picking a whisper, finding recurring tags across
 * sessions, and filling a lore fragment with a tag.
 */
module Lore {
  import opened Wrappers
  import opened Text
  import opened Distinct

  /** `getRandomWhisper`, with the random position passed in as `draw`. */
  function GetRandomWhisper(whispers: seq<string>, draw: nat): (w: string)
    requires |whispers| == 0 || draw < |whispers|
    ensures |whispers| == 0 ==> w == "The bar holds its secrets tonight."
    ensures |whispers| > 0 ==> w in whispers
  {
    if |whispers| == 0 then "The bar holds its secrets tonight."
    else whispers[draw]
  }

  /** The `reduce` of `combineTags`: how many times each tag occurs. */
  function TagCounts(tags: seq<string>): (counts: map<string, nat>)
    ensures forall t :: t in counts <==> t in tags
    ensures forall t :: t in counts ==> counts[t] == multiset(tags)[t]
    decreases |tags|
  {
    if tags == [] then map[]
    else
      var init := tags[..|tags| - 1];
      var acc := TagCounts(init);
      var tag := tags[|tags| - 1];
      assert tags == init + [tag];
      acc[tag := (if tag in acc then acc[tag] else 0) + 1]
  }

  /** The `filter`/`map` of `combineTags` over the entries listed in `keys` order. */
  function Recurring(keys: seq<string>, counts: map<string, nat>): (r: seq<string>)
    requires forall k :: k in keys ==> k in counts
    ensures forall t :: t in r <==> t in keys && counts[t] > 1
    ensures NoDuplicates(keys) ==> NoDuplicates(r)
    decreases |keys|
  {
    if keys == [] then []
    else
      var init := keys[..|keys| - 1];
      var k := keys[|keys| - 1];
      var r := Recurring(init, counts);
      assert NoDuplicates(keys) ==> k !in init && NoDuplicates(init);
      if counts[k] > 1 then r + [k] else r
  }

  /**
   * `combineTags`: the tags that occur more than once in `allTags`, each once.
   * The entries of the count object are visited in the order their tags first occur.
   */
  function CombineTags(allTags: seq<string>): (r: seq<string>)
    ensures forall t :: t in r <==> multiset(allTags)[t] > 1
    ensures NoDuplicates(r)
    ensures forall t :: t in r ==> t in allTags
  {
    var counts := TagCounts(allTags);
    Recurring(Dedup(allTags), counts)
  }

  /** The five fragments, each split around its single `{tag}` placeholder. */
  const FragmentHeads: seq<string> := [
    "The recurring tale of ",
    "Guests have begun to notice the pattern of ",
    "The bar's memory holds the essence of ",
    "Something about ",
    "The spirits whisper of "]
  const FragmentTails: seq<string> := [
    " grows stronger with each telling.",
    " in their drinks.",
    " close.",
    " calls to the returning souls.",
    " when the night grows deep."]

  function Fragment(i: nat): string
    requires i < 5
  {
    FragmentHeads[i] + "{tag}" + FragmentTails[i]
  }

  /** A tag as it appears in a fragment: its first "_" becomes a space. */
  function Spaced(tag: string): (r: string)
    ensures |r| == |tag|
    ensures '_' !in tag ==> r == tag
    ensures '$' !in tag ==> '$' !in r
  {
    UnderscoreToSpace(tag);
    ReplaceFirst(tag, "_", " ")
  }

  /**
   * `generateLoreFragment`, with the random tag and fragment positions passed in:
   * the chosen fragment's placeholder is replaced by the chosen tag.
   */
  function GenerateLoreFragment(tags: seq<string>, tagDraw: nat, fragmentDraw: nat): (r: string)
    requires |tags| == 0 || (tagDraw < |tags| && fragmentDraw < 5)
    ensures |tags| == 0 ==> r == "The bar remembers all who enter."
    ensures |tags| > 0 ==>
              r == FragmentHeads[fragmentDraw]
                   + Substitution(Spaced(tags[tagDraw]), "{tag}", FragmentHeads[fragmentDraw], FragmentTails[fragmentDraw])
                   + FragmentTails[fragmentDraw]
    ensures |tags| > 0 && '$' !in tags[tagDraw] ==>
              r == FragmentHeads[fragmentDraw] + Spaced(tags[tagDraw]) + FragmentTails[fragmentDraw]
  {
    if |tags| == 0 then "The bar remembers all who enter."
    else
      var randomTag := tags[tagDraw];
      var head, tail := FragmentHeads[fragmentDraw], FragmentTails[fragmentDraw];
      assert '{' !in head;
      FirstOccurrenceAfter(head, "{tag}", tail);
      var fragment := Fragment(fragmentDraw);
      assert fragment[|head| + 5..] == tail;
      assert fragment[..|head|] == head;
      UnderscoreToSpace(randomTag);
      ReplaceFirst(fragment, "{tag}", Spaced(randomTag))
  }

  /**
   * Only the first "_" of a tag becomes a space: in `a + "_" + b`, with no
   * underscore in `a`, every underscore of `b` is kept.
   */
  lemma OnlyFirstUnderscoreReplaced(a: string, b: string)
    requires '_' !in a
    ensures Spaced(a + "_" + b) == a + " " + b
  {
    var s := a + "_" + b;
    FirstOccurrenceAfter(a, "_", b);
    assert s[..|a|] == a && s[|a| + 1..] == b;
  }
}
