/**
  The catalog screen's pure logic in app/index.tsx: display names without
  the `.json` extension, the search filter, and the "more than one week
  since the last attempt" nudge.
*/
module Catalog {
  import opened Wrappers
  import opened Text

  /** A catalog item: `{ id, name, updatedAt? }`. */
  datatype Entry = Entry(id: string, name: string, updatedAt: Option<string>)

  /** `e` is `.json` in any letter case: what `/\.json$/i` matches at the end of a name. */
  predicate IsJsonExt(e: string) {
    |e| == 5 && e[0] == '.' &&
    (e[1] == 'j' || e[1] == 'J') && (e[2] == 's' || e[2] == 'S') &&
    (e[3] == 'o' || e[3] == 'O') && (e[4] == 'n' || e[4] == 'N')
  }

  predicate HasJsonExt(name: string) {
    |name| >= 5 && IsJsonExt(name[|name| - 5..])
  }

  /** `toDisplayName`: drops one trailing `.json`, matched case-insensitively. */
  function ToDisplayName(name: string): (r: string)
    ensures HasJsonExt(name) ==> |r| == |name| - 5 && r + name[|r|..] == name
    ensures !HasJsonExt(name) ==> r == name
  {
    if HasJsonExt(name) then name[..|name| - 5] else name
  }

  /**
    Stripping undoes appending an extension, and strips only one: the name
    before the extension comes back whatever it ends with.
  */
  lemma DisplayNameOfJsonFile(stem: string, ext: string)
    requires IsJsonExt(ext)
    ensures ToDisplayName(stem + ext) == stem
  {
    assert (stem + ext)[|stem + ext| - 5..] == ext;
    assert (stem + ext)[..|stem|] == stem;
  }

  /** The name changes exactly when it ends in `.json`. */
  lemma DisplayNameChanges(name: string)
    ensures ToDisplayName(name) != name <==> HasJsonExt(name)
  {
  }

  /**
    `toDisplayName(c.name).toLowerCase().includes(term)`: an empty term
    matches every entry, and a term longer than the name matches none.
  */
  function Matches(e: Entry, term: string): (b: bool)
    ensures term == [] ==> b
    ensures b ==> |term| <= |e.name|
  {
    var shown := Lower(ToDisplayName(e.name));
    assert term == [] ==> OccursAt(shown, term, 0);
    Contains(shown, term)
  }

  /**
    `items.filter(c => Matches(c, term))`: each matching entry is kept as
    often as it occurs, every other entry is dropped.
  */
  function Keep(items: seq<Entry>, term: string): (r: seq<Entry>)
    ensures forall e :: e in r <==> e in items && Matches(e, term)
    ensures forall e :: multiset(r)[e] == if Matches(e, term) then multiset(items)[e] else 0
    ensures |r| <= |items|
    ensures (forall k :: 0 <= k < |items| ==> Matches(items[k], term)) ==> r == items
  {
    if |items| == 0 then []
    else
      var rest := Keep(items[1..], term);
      assert multiset(items) == multiset{items[0]} + multiset(items[1..]) by {
        assert items == [items[0]] + items[1..];
      }
      assert forall k :: 1 <= k < |items| ==> items[k] == items[1..][k - 1];
      if Matches(items[0], term) then [items[0]] + rest else rest
  }

  /**
    Filtering keeps the catalog order: the kept entries of a concatenation
    are the kept entries of its first part followed by those of its second.
  */
  lemma {:induction false} KeepConcat(a: seq<Entry>, b: seq<Entry>, term: string)
    ensures Keep(a + b, term) == Keep(a, term) + Keep(b, term)
  {
    if |a| == 0 {
      assert a + b == b;
    } else {
      assert (a + b)[1..] == a[1..] + b;
      KeepConcat(a[1..], b, term);
    }
  }

  /**
    `filteredCatalog`: with a blank search (after `trim`) the whole catalog
    (none loaded yet reads as empty), otherwise the items whose display name,
    lower-cased, contains the lower-cased trimmed search.
  */
  function FilterCatalog(catalog: Option<seq<Entry>>, search: string): (r: seq<Entry>)
    ensures var items := if catalog.Some? then catalog.value else [];
      (forall k :: 0 <= k < |search| ==> IsSpace(search[k])) ==> r == items
    ensures var items := if catalog.Some? then catalog.value else [];
      (exists k :: 0 <= k < |search| && !IsSpace(search[k])) ==>
        forall e :: multiset(r)[e] == if Matches(e, Lower(Trim(search))) then multiset(items)[e] else 0
  {
    var items := if catalog.Some? then catalog.value else [];
    var term := Lower(Trim(search));
    if term == [] then items else Keep(items, term)
  }

  /**
    The filtered list keeps the catalog's order: filtering a catalog made of
    two parts lists the first part's results before the second's.
  */
  lemma FilterCatalogConcat(a: seq<Entry>, b: seq<Entry>, search: string)
    ensures FilterCatalog(Some(a + b), search) == FilterCatalog(Some(a), search) + FilterCatalog(Some(b), search)
  {
    KeepConcat(a, b, Lower(Trim(search)));
  }

  /** `ONE_WEEK`, in milliseconds. */
  const OneWeek: int := 7 * 24 * 60 * 60 * 1000

  /** `showWeekMsg`: a last attempt is recorded and more than a week has passed since it. */
  function ShowWeekMessage(lastTs: Option<real>, now: int): (b: bool)
    ensures b <==> lastTs.Some? && now as real > lastTs.value + 604800000.0
  {
    lastTs.Some? && now as real - lastTs.value > OneWeek as real
  }

  /** Once the nudge shows, it keeps showing as time passes; never within the first week. */
  lemma WeekMessageMonotone(lastTs: Option<real>, now: int, later: int)
    requires now <= later
    ensures ShowWeekMessage(lastTs, now) ==> ShowWeekMessage(lastTs, later)
    ensures lastTs.Some? && now as real <= lastTs.value + OneWeek as real ==> !ShowWeekMessage(lastTs, now)
  {
  }

  /** `cardTone`: a stored score below 6 marks a failed card, 6 or more a passed one, none no tone. */
  function CardPassed(score: Option<real>): (tone: Option<bool>)
    ensures tone.None? <==> score.None?
    ensures tone == Some(true) <==> score.Some? && score.value >= 6.0
  {
    if score.None? then None else Some(!(score.value < 6.0))
  }
}
