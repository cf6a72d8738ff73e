/**
  Persisted last scores and last-attempt dates (app/index.tsx): the keys
  `@biblequiz:lastScore:<id>` and `@biblequiz:lastDate:<id>`, and the
  `forEach` that turns the pairs read back from storage into two maps.
  Storage itself is not modelled; the pairs it returns are the input.
*/
module Storage {
  import opened Wrappers
  import opened Text

  const ScorePrefix: string := "@biblequiz:lastScore:"
  const DatePrefix: string := "@biblequiz:lastDate:"

  /** `@biblequiz:lastScore:${id}`: the prefix followed by the id itself. */
  function ScoreKey(id: string): (key: string)
    ensures |key| == |ScorePrefix| + |id|
    ensures key[..|ScorePrefix|] == ScorePrefix && key[|ScorePrefix|..] == id
  {
    ScorePrefix + id
  }

  /** `@biblequiz:lastDate:${id}`: the prefix followed by the id itself. */
  function DateKey(id: string): (key: string)
    ensures |key| == |DatePrefix| + |id|
    ensures key[..|DatePrefix|] == DatePrefix && key[|DatePrefix|..] == id
  {
    DatePrefix + id
  }

  /** `s.lastIndexOf(c)`: the last position holding `c`, or -1. */
  function LastIndexOf(s: string, c: char): (r: int)
    ensures -1 <= r < |s|
    ensures r >= 0 ==> s[r] == c
    ensures forall k :: r < k < |s| ==> s[k] != c
  {
    if |s| == 0 then -1
    else if s[|s| - 1] == c then |s| - 1
    else LastIndexOf(s[..|s| - 1], c)
  }

  /** `key.substring(key.lastIndexOf(':') + 1)`: the longest colon-free suffix of the key. */
  function KeyId(key: string): (id: string)
    ensures ':' !in id && |id| <= |key| && key[|key| - |id|..] == id
    ensures |id| < |key| ==> key[|key| - |id| - 1] == ':'
  {
    key[LastIndexOf(key, ':') + 1..]
  }

  /** Which map a key feeds: the score test comes first, as in the source. */
  datatype Slot = ScoreSlot | DateSlot

  function SlotOf(key: string): (slot: Option<Slot>)
    ensures slot == Some(ScoreSlot) <==> Contains(key, ":lastScore:")
    ensures slot == Some(DateSlot) <==> !Contains(key, ":lastScore:") && Contains(key, ":lastDate:")
    ensures slot.None? <==> !Contains(key, ":lastScore:") && !Contains(key, ":lastDate:")
  {
    if Contains(key, ":lastScore:") then Some(ScoreSlot)
    else if Contains(key, ":lastDate:") then Some(DateSlot)
    else None
  }

  /** The two maps the catalog badges read: `lastScores` and `lastDates`. */
  datatype Saved = Saved(scores: map<string, real>, dates: map<string, real>)

  /**
    One `forEach` step: a pair with an empty key or a null value is skipped,
    so is a value `Number` reads as NaN (`toNumber` answers None); otherwise
    the number is stored under the key's id in the map its slot names.
  */
  function Put(acc: Saved, key: string, value: Option<string>, toNumber: string -> Option<real>): (r: Saved)
    ensures key == "" || value.None? || SlotOf(key).None? || toNumber(value.value).None? ==> r == acc
    ensures key != "" && value.Some? && SlotOf(key) == Some(ScoreSlot) && toNumber(value.value).Some? ==>
      r == acc.(scores := acc.scores[KeyId(key) := toNumber(value.value).value])
    ensures key != "" && value.Some? && SlotOf(key) == Some(DateSlot) && toNumber(value.value).Some? ==>
      r == acc.(dates := acc.dates[KeyId(key) := toNumber(value.value).value])
    ensures r.scores == acc.scores || r.dates == acc.dates
    ensures r.scores != acc.scores ==> SlotOf(key) == Some(ScoreSlot) && r.scores == acc.scores[KeyId(key) := toNumber(value.value).value]
    ensures r.dates != acc.dates ==> SlotOf(key) == Some(DateSlot) && r.dates == acc.dates[KeyId(key) := toNumber(value.value).value]
  {
    if key == "" || value.None? then acc
    else match (SlotOf(key), toNumber(value.value))
      case (Some(ScoreSlot), Some(x)) => acc.(scores := acc.scores[KeyId(key) := x])
      case (Some(DateSlot), Some(x)) => acc.(dates := acc.dates[KeyId(key) := x])
      case _ => acc
  }

  /** The maps after the `forEach` over all pairs, in order; every id in them is colon-free. */
  function Collect(pairs: seq<(string, Option<string>)>, toNumber: string -> Option<real>): (r: Saved)
    ensures forall id :: id in r.scores ==> ':' !in id
    ensures forall id :: id in r.dates ==> ':' !in id
  {
    if |pairs| == 0 then Saved(map[], map[])
    else
      var last := pairs[|pairs| - 1];
      Put(Collect(pairs[..|pairs| - 1], toNumber), last.0, last.1, toNumber)
  }

  /** The pair stores a number for `id` in the map named by `slot`. */
  predicate Stores(pair: (string, Option<string>), slot: Slot, id: string, toNumber: string -> Option<real>) {
    pair.0 != "" && pair.1.Some? && toNumber(pair.1.value).Some? &&
    SlotOf(pair.0) == Some(slot) && KeyId(pair.0) == id
  }

  /** Loading a score: the key's id is recovered and the key is routed to the score map. */
  lemma ScoreKeyRoundTrip(id: string)
    requires ':' !in id
    ensures KeyId(ScoreKey(id)) == id
    ensures SlotOf(ScoreKey(id)) == Some(ScoreSlot)
  {
    var key := ScoreKey(id);
    assert OccursAt(key, ":lastScore:", 10);
    KeyIdAfterPrefix(ScorePrefix, id);
  }

  /** Loading a date: the key's id is recovered and the key is routed to the date map, not the score map. */
  lemma DateKeyRoundTrip(id: string)
    requires ':' !in id
    ensures KeyId(DateKey(id)) == id
    ensures SlotOf(DateKey(id)) == Some(DateSlot)
  {
    var key := DateKey(id);
    assert OccursAt(key, ":lastDate:", 10);
    KeyIdAfterPrefix(DatePrefix, id);
    forall k | 0 <= k < |key| && k != 10 && k != 19 ensures key[k] != ':' {
      if k < |DatePrefix| {
        assert key[k] == DatePrefix[k];
      } else {
        assert key[k] == id[k - |DatePrefix|];
      }
    }
    forall i | 0 <= i <= |key| - 11 ensures !OccursAt(key, ":lastScore:", i) {
      if i != 10 && i != 19 {
        assert key[i..i + 11][0] == key[i];
      } else {
        assert key[i..i + 11][10] == key[i + 10];
      }
    }
  }

  /** A colon-terminated prefix followed by a colon-free id parses back to that id. */
  lemma KeyIdAfterPrefix(prefix: string, id: string)
    requires |prefix| > 0 && prefix[|prefix| - 1] == ':' && ':' !in id
    ensures KeyId(prefix + id) == id
  {
    var key := prefix + id;
    assert key[|key| - |id| - 1] == ':';
    assert key[|key| - |id|..] == id;
  }

  /** One step adds `id` to a map exactly when the pair stores a number for it there. */
  lemma PutDomain(acc: Saved, pair: (string, Option<string>), id: string, toNumber: string -> Option<real>)
    ensures id in Put(acc, pair.0, pair.1, toNumber).scores <==> id in acc.scores || Stores(pair, ScoreSlot, id, toNumber)
    ensures id in Put(acc, pair.0, pair.1, toNumber).dates <==> id in acc.dates || Stores(pair, DateSlot, id, toNumber)
  {
  }

  /**
    After loading, an id has a score exactly when some pair stores a number
    for it under a score key, and a date exactly when some pair does so
    under a date key.
  */
  lemma {:induction false} CollectDomain(pairs: seq<(string, Option<string>)>, id: string, toNumber: string -> Option<real>)
    ensures id in Collect(pairs, toNumber).scores <==> exists k :: 0 <= k < |pairs| && Stores(pairs[k], ScoreSlot, id, toNumber)
    ensures id in Collect(pairs, toNumber).dates <==> exists k :: 0 <= k < |pairs| && Stores(pairs[k], DateSlot, id, toNumber)
  {
    if |pairs| > 0 {
      var init := pairs[..|pairs| - 1];
      var last := pairs[|pairs| - 1];
      CollectDomain(init, id, toNumber);
      PutDomain(Collect(init, toNumber), last, id, toNumber);
      StoredSplit(pairs, init, ScoreSlot, id, toNumber);
      StoredSplit(pairs, init, DateSlot, id, toNumber);
    }
  }

  /** Some pair stores for `id` exactly when an earlier pair or the last one does. */
  lemma StoredSplit(pairs: seq<(string, Option<string>)>, init: seq<(string, Option<string>)>, slot: Slot, id: string,
                    toNumber: string -> Option<real>)
    requires |pairs| > 0 && init == pairs[..|pairs| - 1]
    ensures (exists k :: 0 <= k < |pairs| && Stores(pairs[k], slot, id, toNumber)) <==>
            (exists k :: 0 <= k < |init| && Stores(init[k], slot, id, toNumber)) || Stores(pairs[|pairs| - 1], slot, id, toNumber)
  {
    assert forall k :: 0 <= k < |init| ==> init[k] == pairs[k];
  }

  /**
    A score saved under `ScoreKey(id)` is what the next load shows for `id`,
    whatever came before it; every other score and every date are kept;
    null values change nothing.
  */
  lemma SavedScoreLoads(pairs: seq<(string, Option<string>)>, id: string, v: string, x: real, toNumber: string -> Option<real>)
    requires ':' !in id && toNumber(v) == Some(x)
    ensures var after := Collect(pairs + [(ScoreKey(id), Some(v))], toNumber);
      after.scores == Collect(pairs, toNumber).scores[id := x] && after.dates == Collect(pairs, toNumber).dates
    ensures Collect(pairs + [(ScoreKey(id), None)], toNumber) == Collect(pairs, toNumber)
  {
    ScoreKeyRoundTrip(id);
    assert (pairs + [(ScoreKey(id), Some(v))])[..|pairs|] == pairs;
    assert (pairs + [(ScoreKey(id), None)])[..|pairs|] == pairs;
  }

  /** A date saved under `DateKey(id)` is what the next load shows for `id`; the other dates and the scores are kept. */
  lemma SavedDateLoads(pairs: seq<(string, Option<string>)>, id: string, v: string, x: real, toNumber: string -> Option<real>)
    requires ':' !in id && toNumber(v) == Some(x)
    ensures var after := Collect(pairs + [(DateKey(id), Some(v))], toNumber);
      after.dates == Collect(pairs, toNumber).dates[id := x] && after.scores == Collect(pairs, toNumber).scores
  {
    DateKeyRoundTrip(id);
    assert (pairs + [(DateKey(id), Some(v))])[..|pairs|] == pairs;
  }

  /** The `pairs.forEach(...)` loop filling `map` and `dateMap`. */
  method LoadSaved(pairs: seq<(string, Option<string>)>, toNumber: string -> Option<real>)
    returns (scores: map<string, real>, dates: map<string, real>)
    ensures Saved(scores, dates) == Collect(pairs, toNumber)
  {
    scores, dates := map[], map[];
    var i := 0;
    while i < |pairs|
      invariant 0 <= i <= |pairs|
      invariant Saved(scores, dates) == Collect(pairs[..i], toNumber)
    {
      var (key, value) := pairs[i];
      assert pairs[..i + 1][..i] == pairs[..i];
      if key != "" && value.Some? {
        var id := KeyId(key);
        if Contains(key, ":lastScore:") {
          var num := toNumber(value.value);
          if num.Some? {
            scores := scores[id := num.value];
          }
        } else if Contains(key, ":lastDate:") {
          var ts := toNumber(value.value);
          if ts.Some? {
            dates := dates[id := ts.value];
          }
        }
      }
      i := i + 1;
    }
    assert pairs[..i] == pairs;
  }
}
