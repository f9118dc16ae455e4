/** Searching the stores that parsing and merging write. */
module StoreSearch {
  import opened IndexStore
  import opened Relocation
  import opened Building
  import opened Merging
  import opened Search

  /** Any directory of a parsed input may be searched. */
  lemma ParsedSearchable(src: Source, items: Items, sfs: seq<nat>, sf: Forest, r: nat, fs: seq<nat>, k: Forest)
    requires SourceOf(src, items, sfs, sf) && Packed(src.store) && Within(sf, r, fs, k)
    ensures Searchable(src.store, r, fs, k)
  {
    hide Packed, Searchable, Within;
    EveryDirectorySearchable(src.store, sf, src.dirs.first, -1, r, fs, k);
  }

  /** So may the root of a merge. */
  lemma MergedSearchable(s: Store, fs: seq<nat>, g: Forest, inputs: seq<Items>, rootName: string, nextUid: int)
    requires MergedStore(s, fs, g, inputs, rootName, nextUid)
    ensures Searchable(s, 0, fs, g)
  {
  }
}
