/**
 * The merge step of the lore endpoint's POST handler: the stored tags and
 * whispers are updated in place from a request body. Reading and writing the
 * JSON file around it is not modelled.
 */
module LoreRoute {
  import opened Wrappers
  import opened Distinct

  /** The whisper of a request is taken only when it is a non-empty string not stored yet. */
  predicate AcceptsWhisper(whisper: Option<string>, whispers: seq<string>) {
    whisper.Some? && whisper.value != "" && whisper.value !in whispers
  }

  /** The lore document: accumulated tags and whispers. */
  class LoreStore {
    var tags: seq<string>
    var whispers: seq<string>

    constructor (tags: seq<string>, whispers: seq<string>)
      ensures this.tags == tags && this.whispers == whispers
    {
      this.tags := tags;
      this.whispers := whispers;
    }

    /**
     * The merge of `POST`: `newTags` is `None` when the body's `tags` is missing or
     * not an array, `whisper` is `None` when the body's `whisper` is missing or not a string.
     */
    method Post(newTags: Option<seq<string>>, whisper: Option<string>)
      modifies this
      ensures newTags.None? ==> tags == old(tags)
      ensures newTags.Some? ==> tags == Dedup(old(tags) + newTags.value)
      ensures newTags.Some? ==> NoDuplicates(tags)
      ensures newTags.Some? ==> forall t :: t in tags <==> t in old(tags) || t in newTags.value
      ensures NoDuplicates(old(tags)) ==> old(tags) <= tags
      ensures whispers == if AcceptsWhisper(whisper, old(whispers)) then old(whispers) + [whisper.value] else old(whispers)
      ensures old(whispers) <= whispers
      ensures NoDuplicates(old(whispers)) ==> NoDuplicates(whispers)
    {
      if newTags.Some? {
        DedupPrefix(tags, newTags.value);
        if NoDuplicates(tags) {
          DedupOfDistinct(tags);
        }
        tags := Dedup(tags + newTags.value);
      }

      match whisper {
        case Some(w) =>
          if w != "" {
            if w !in whispers {
              whispers := whispers + [w];
            }
          }
        case None =>
      }
    }
  }

  /** Posting the same body twice leaves the store as posting it once does. */
  method RepeatPost(store: LoreStore, newTags: Option<seq<string>>, whisper: Option<string>)
    modifies store
    ensures newTags.None? ==> store.tags == old(store.tags)
    ensures newTags.Some? ==> store.tags == Dedup(old(store.tags) + newTags.value)
    ensures store.whispers == if AcceptsWhisper(whisper, old(store.whispers))
                              then old(store.whispers) + [whisper.value] else old(store.whispers)
  {
    store.Post(newTags, whisper);
    store.Post(newTags, whisper);
    if newTags.Some? {
      DedupAbsorbs(old(store.tags), newTags.value);
    }
  }
}
