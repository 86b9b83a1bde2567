/** The thirteen key names `toCustomMap` writes, spelled out. */
module PageKeyNames {
  const KeyNames: set<string> := {
    "content", "total_elements", "total_pages", "size", "number", "number_of_elements", "sort",
    "empty", "has_content", "first", "last", "has_previous", "has_next"}

  lemma KeyNamesCount()
    ensures |KeyNames| == 13
  {
  }
}
