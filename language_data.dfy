/** The shared language state (`language/LanguageData.ts`): the current
    language and its bundle, and the loaded string tables in the order they
    were added to the `Map`, each a table from text keys to texts. */
module LanguageStore {

  /** The static fields the language manager writes; both start empty. */
  class LanguageData {
    /** `LanguageData.current`. */
    var current: string
    /** `LanguageData.bundleName`. */
    var bundleName: string

    constructor ()
      ensures current == "" && bundleName == ""
    {
      current := "";
      bundleName := "";
    }
  }

  /** The entries of `LanguageData.language`, in insertion order. */
  type Tables = seq<(string, map<string, string>)>

  /** Table `t` has a truthy text for `labId`: present and not empty. */
  predicate HasText(t: map<string, string>, labId: string) {
    labId in t && t[labId] != ""
  }

  /** `getLangByID(labId)`: the text of the first table that has a
      non-empty one, or the key itself; so the result is always the key or
      a non-empty text one of the tables holds for it. */
  function GetLangById(tables: Tables, labId: string): (text: string)
    ensures text == labId || exists k :: 0 <= k < |tables| && HasText(tables[k].1, labId) && text == tables[k].1[labId]
  {
    if tables == [] then labId
    else if HasText(tables[0].1, labId) then tables[0].1[labId]
    else GetLangById(tables[1..], labId)
  }

  /** With no table holding a non-empty text, the key comes back. */
  lemma {:induction false} FallbackToKey(tables: Tables, labId: string)
    requires forall k :: 0 <= k < |tables| ==> !HasText(tables[k].1, labId)
    ensures GetLangById(tables, labId) == labId
  {
    if tables != [] {
      assert !HasText(tables[0].1, labId);
      FallbackToKey(tables[1..], labId);
    }
  }

  /** The first table with a non-empty text decides; earlier tables, whether
      they lack the key or hold an empty text, are passed over. */
  lemma {:induction false} FirstTableWins(tables: Tables, labId: string, k: nat)
    requires k < |tables| && HasText(tables[k].1, labId)
    requires forall j :: 0 <= j < k ==> !HasText(tables[j].1, labId)
    ensures GetLangById(tables, labId) == tables[k].1[labId]
  {
    if k > 0 {
      assert !HasText(tables[0].1, labId);
      FirstTableWins(tables[1..], labId, k - 1);
    }
  }

  /** An empty Chinese text gives way to the English one. */
  lemma EmptyTextSkipped()
    ensures GetLangById([("zh", map["title" := ""]), ("en", map["title" := "Klondike"])], "title") == "Klondike"
    ensures GetLangById([("zh", map["title" := ""])], "title") == "title"
  {
  }
}
