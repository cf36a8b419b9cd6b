/**
 * Hand-drawn reference images for Devanagari characters: one JSON object
 * from character to base64 PNG under one localStorage key, modelled as a
 * `Slot` holding a `Table` in a `DrawingStore`.
 */
module ReferenceDrawings {
  import opened Wrappers
  import opened Tables

  class DrawingStore {
    /** `typeof window !== "undefined"`. */
    const browser: bool
    var stored: Slot<Table<string>>

    /** A parsed object has distinct keys. */
    ghost predicate Valid()
      reads this
    {
      stored.Present? ==> DistinctKeys(stored.value)
    }

    constructor(inBrowser: bool)
      ensures browser == inBrowser && stored == Absent && Valid()
    {
      browser := inBrowser;
      stored := Absent;
    }

    /** `getReferenceDrawings`: `{}` on the server, without data or on a parse error. */
    function Drawings(): (t: Table<string>)
      reads this
      ensures !browser ==> t == []
      ensures browser ==> t == stored.OrElse([])
      ensures Valid() ==> DistinctKeys(t)
    {
      if browser then stored.OrElse([]) else []
    }

    /** `getReference`: the stored image, or null. */
    function GetReference(devanagari: string): (r: Option<string>)
      reads this
      ensures r.None? <==> !HasKey(Drawings(), devanagari)
      ensures Valid() && r.Some? ==> exists i :: 0 <= i < |Drawings()| && Drawings()[i] == (devanagari, r.value)
    {
      Get(Drawings(), devanagari)
    }

    /** `hasReference`: `!!getReference(c)`, so an empty string counts as absent. */
    predicate HasReference(devanagari: string)
      reads this
    {
      GetReference(devanagari).Some? && GetReference(devanagari).value != ""
    }

    /** `setReference`: store the image under the character; on the server the save is skipped. */
    method SetReference(devanagari: string, base64Png: string)
      requires Valid()
      modifies this
      ensures browser ==> stored == Present(Put(old(Drawings()), devanagari, base64Png))
      ensures !browser ==> stored == old(stored)
      ensures browser ==> GetReference(devanagari) == Some(base64Png) && (HasReference(devanagari) <==> base64Png != "")
      ensures forall other :: other != devanagari ==> GetReference(other) == old(GetReference(other))
      ensures Valid()
    {
      var refs := Drawings();
      PutGet(refs, devanagari, base64Png, devanagari);
      forall other | other != devanagari
        ensures Get(Put(refs, devanagari, base64Png), other) == Get(refs, other)
      {
        PutGet(refs, devanagari, base64Png, other);
      }
      if browser {
        stored := Present(Put(refs, devanagari, base64Png));
      }
    }
  }

  /**
   * On the stored object, `setReference(c, png)` makes `c` read back `png`
   * and leaves every other character as it was.
   */
  lemma SetThenGet(before: Table<string>, c: string, png: string, other: string)
    requires DistinctKeys(before)
    ensures Get(Put(before, c, png), c) == Some(png)
    ensures other != c ==> Get(Put(before, c, png), other) == Get(before, other)
  {
    PutGet(before, c, png, other);
  }
}
