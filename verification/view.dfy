/** The views `src/app/App.tsx` derives from the entry list on every render:
    the filtered entries shown in the table and exported, and the distinct
    status values offered in the status drop-down. */
module LogbookView {
  import opened Text
  import opened Seqs
  import opened Logbook

  /** The drop-down value that disables the status filter. */
  const AllStatuses: string := "all"

  /** The search term, folded, occurs in one of the four searched fields,
      folded. The other fields are never searched. */
  predicate MatchesSearch(e: Entry, term: string) {
    var t := Lower(term);
    || Contains(Lower(e.modulFitur), t)
    || Contains(Lower(e.aktivitas), t)
    || Contains(Lower(e.pic), t)
    || Contains(Lower(e.detailTeknis), t)
  }

  /** The status filter is off, or the status equals it exactly (case-sensitive). */
  predicate MatchesStatus(e: Entry, statusFilter: string) {
    statusFilter == AllStatuses || e.status == statusFilter
  }

  predicate Keep(e: Entry, term: string, statusFilter: string) {
    MatchesSearch(e, term) && MatchesStatus(e, statusFilter)
  }

  /** `filteredEntries`: the entries passing both the search and the status
      test, in list order, duplicates kept. */
  function Filtered(entries: seq<Entry>, term: string, statusFilter: string): (r: seq<Entry>)
    ensures IsSubsequence(r, entries)
    ensures forall e :: e in r <==> e in entries && MatchesSearch(e, term) && MatchesStatus(e, statusFilter)
    ensures forall e :: multiset(r)[e] == if Keep(e, term, statusFilter) then multiset(entries)[e] else 0
  {
    FilterSeq(entries, e => Keep(e, term, statusFilter))
  }

  /** An empty search with the status filter off shows every entry. */
  lemma FilterShowsAllByDefault(entries: seq<Entry>)
    ensures Filtered(entries, "", AllStatuses) == entries
  {
    forall e | e in entries
      ensures Keep(e, "", AllStatuses)
    {
      EmptyOccursEverywhere(Lower(e.modulFitur));
    }
    FilterKeepsAll(entries, e => Keep(e, "", AllStatuses));
  }

  /** Filtering the filtered view again with the same inputs changes nothing. */
  lemma FilterIdempotentView(entries: seq<Entry>, term: string, statusFilter: string)
    ensures Filtered(Filtered(entries, term, statusFilter), term, statusFilter)
         == Filtered(entries, term, statusFilter)
  {
    FilterIdempotent(entries, e => Keep(e, term, statusFilter));
  }

  /** The search ignores the ASCII case of the term. */
  lemma SearchIgnoresTermCase(entries: seq<Entry>, term: string, statusFilter: string)
    ensures Filtered(entries, Lower(term), statusFilter) == Filtered(entries, term, statusFilter)
  {
    LowerIdempotent(term);
    FilterCongruent(entries, e => Keep(e, Lower(term), statusFilter), e => Keep(e, term, statusFilter));
  }

  /* ---------------- status options ---------------- */

  /** `entries.map((e) => e.status)`. */
  function Statuses(entries: seq<Entry>): (ss: seq<string>)
    ensures |ss| == |entries|
    ensures forall i :: 0 <= i < |entries| ==> ss[i] == entries[i].status
  {
    seq(|entries|, i requires 0 <= i < |entries| => entries[i].status)
  }

  predicate NonEmpty(s: string) {
    s != ""
  }

  /** `uniqueStatuses`: the distinct statuses of the unfiltered list, in the
      order each first appears, without the empty string. */
  function UniqueStatuses(entries: seq<Entry>): (r: seq<string>)
    ensures NoDup(r)
    ensures "" !in r
    ensures forall s :: s in r <==> s != "" && exists e :: e in entries && e.status == s
    ensures FirstSeenOrder(r, Statuses(entries))
  {
    var all := Statuses(entries);
    var d := Dedup(all);
    DedupFirstSeenOrder(all);
    FilterKeepsNoDup(d, NonEmpty);
    FilterKeepsFirstSeenOrder(d, all, NonEmpty);
    assert forall s :: s in all <==> exists e :: e in entries && e.status == s by {
      forall s | s in all
        ensures exists e :: e in entries && e.status == s
      {
        var i :| 0 <= i < |all| && all[i] == s;
        assert entries[i] in entries;
      }
      forall s | exists e :: e in entries && e.status == s
        ensures s in all
      {
        var e :| e in entries && e.status == s;
        var i :| 0 <= i < |entries| && entries[i] == e;
        assert all[i] == s;
      }
    }
    FilterSeq(d, NonEmpty)
  }
}
