/**
 * Ordering a per-user result ascending by value, stably. The dictionary's
 * items are taken one at a time, in the dictionary's (here unspecified)
 * order, and each is placed after every item already placed whose value is
 * not greater, which is what a stable ascending sort of that order produces.
 */
module Sorting {

  type Entry = (string, real)

  /** Values never decrease from left to right. */
  predicate SortedByValue(s: seq<Entry>)
  {
    forall i, j :: 0 <= i < j < |s| ==> s[i].1 <= s[j].1
  }

  /** No user is listed twice. */
  predicate DistinctUsers(s: seq<Entry>)
  {
    forall i, j :: 0 <= i < j < |s| ==> s[i].0 != s[j].0
  }

  /** Every entry of `s` is an entry of `m`. */
  predicate EntriesOf(s: seq<Entry>, m: map<string, real>)
  {
    forall i :: 0 <= i < |s| ==> s[i].0 in m && s[i].1 == m[s[i].0]
  }

  /** Every user of `m` is listed somewhere in `s`. */
  predicate CoversUsers(s: seq<Entry>, m: map<string, real>)
  {
    forall u :: u in m ==> exists i :: 0 <= i < |s| && s[i].0 == u
  }

  /** `s` lists every entry of `m`, each exactly once, and nothing else. */
  predicate ListsItemsOf(s: seq<Entry>, m: map<string, real>)
  {
    EntriesOf(s, m) && DistinctUsers(s) && CoversUsers(s, m)
  }

  /** Where a sorted sequence splits into values `<= v` and values `> v`. */
  function SplitPoint(s: seq<Entry>, v: real): (p: nat)
    requires SortedByValue(s)
    ensures p <= |s|
    ensures forall i :: 0 <= i < p ==> s[i].1 <= v
    ensures forall i :: p <= i < |s| ==> v < s[i].1
    decreases |s|
  {
    if s == [] || v < s[|s| - 1].1 then
      if s == [] then 0 else SplitPoint(s[..|s| - 1], v)
    else |s|
  }

  /** Places `e` after every entry whose value is not greater than its own. */
  function Insert(s: seq<Entry>, e: Entry): seq<Entry>
    requires SortedByValue(s)
  {
    var p := SplitPoint(s, e.1);
    s[..p] + [e] + s[p..]
  }

  /** Where each entry of `Insert(s, e)` comes from. */
  lemma InsertAt(s: seq<Entry>, e: Entry)
    requires SortedByValue(s)
    ensures |Insert(s, e)| == |s| + 1
    ensures forall i :: 0 <= i < |s| + 1 ==>
      Insert(s, e)[i] == (if i < SplitPoint(s, e.1) then s[i]
                          else if i == SplitPoint(s, e.1) then e else s[i - 1])
  {
  }

  /** Inserting keeps a sequence sorted. */
  lemma InsertSorted(s: seq<Entry>, e: Entry)
    requires SortedByValue(s)
    ensures SortedByValue(Insert(s, e))
    ensures |Insert(s, e)| == |s| + 1
  {
    InsertAt(s, e);
  }

  /** Inserting a new user's entry lists the map extended by that entry. */
  lemma InsertLists(s: seq<Entry>, m: map<string, real>, u: string, v: real)
    requires SortedByValue(s) && ListsItemsOf(s, m) && u !in m
    ensures ListsItemsOf(Insert(s, (u, v)), m[u := v])
  {
    InsertAt(s, (u, v));
    InsertEntries(s, m, u, v);
    InsertDistinct(s, m, u, v);
    InsertCovers(s, m, u, v);
  }

  lemma InsertEntries(s: seq<Entry>, m: map<string, real>, u: string, v: real)
    requires SortedByValue(s) && EntriesOf(s, m) && u !in m
    ensures EntriesOf(Insert(s, (u, v)), m[u := v])
  {
    InsertAt(s, (u, v));
  }

  lemma InsertDistinct(s: seq<Entry>, m: map<string, real>, u: string, v: real)
    requires SortedByValue(s) && EntriesOf(s, m) && DistinctUsers(s) && u !in m
    ensures DistinctUsers(Insert(s, (u, v)))
  {
    InsertAt(s, (u, v));
    assert forall i :: 0 <= i < |s| ==> s[i].0 != u;
  }

  lemma InsertCovers(s: seq<Entry>, m: map<string, real>, u: string, v: real)
    requires SortedByValue(s) && CoversUsers(s, m)
    ensures CoversUsers(Insert(s, (u, v)), m[u := v])
  {
    var r, p := Insert(s, (u, v)), SplitPoint(s, v);
    InsertAt(s, (u, v));
    forall w | w in m || w == u ensures exists i :: 0 <= i < |r| && r[i].0 == w {
      if w == u {
        assert r[p].0 == w;
      } else {
        var i :| 0 <= i < |s| && s[i].0 == w;
        if i < p {
          assert r[i].0 == w;
        } else {
          assert r[i + 1].0 == w;
        }
      }
    }
  }

  /**
   * After the users outside `rest` were placed: `listed` is `m` without
   * `rest`, and `ordered` lists it ascending.
   */
  ghost predicate Placed(m: map<string, real>, rest: set<string>, listed: map<string, real>, ordered: seq<Entry>)
  {
    && rest <= m.Keys
    && listed.Keys == m.Keys - rest
    && (forall u :: u in listed ==> listed[u] == m[u])
    && SortedByValue(ordered)
    && ListsItemsOf(ordered, listed)
    && |ordered| == |listed|
  }

  /** Placing one more user of `rest` keeps `Placed`. */
  lemma PlaceOne(m: map<string, real>, rest: set<string>, listed: map<string, real>, ordered: seq<Entry>, u: string)
    requires Placed(m, rest, listed, ordered) && u in rest
    ensures Placed(m, rest - {u}, listed[u := m[u]], Insert(ordered, (u, m[u])))
  {
    PlaceOneListed(m, rest, listed, u);
    PlaceOneOrdered(listed, ordered, u, m[u]);
  }

  /** The map half of `PlaceOne`. */
  lemma PlaceOneListed(m: map<string, real>, rest: set<string>, listed: map<string, real>, u: string)
    requires rest <= m.Keys && listed.Keys == m.Keys - rest && u in rest
    requires forall w :: w in listed ==> listed[w] == m[w]
    ensures u !in listed
    ensures listed[u := m[u]].Keys == m.Keys - (rest - {u})
    ensures forall w :: w in listed[u := m[u]] ==> listed[u := m[u]][w] == m[w]
  {
  }

  /** The sequence half of `PlaceOne`. */
  lemma PlaceOneOrdered(listed: map<string, real>, ordered: seq<Entry>, u: string, v: real)
    requires SortedByValue(ordered) && ListsItemsOf(ordered, listed) && |ordered| == |listed|
    requires u !in listed
    ensures SortedByValue(Insert(ordered, (u, v)))
    ensures ListsItemsOf(Insert(ordered, (u, v)), listed[u := v])
    ensures |Insert(ordered, (u, v))| == |listed[u := v]|
  {
    InsertSorted(ordered, (u, v));
    InsertLists(ordered, listed, u, v);
  }

  /** The items of `m`, ascending by value. */
  method SortByValue(m: map<string, real>) returns (ordered: seq<Entry>)
    ensures SortedByValue(ordered)
    ensures ListsItemsOf(ordered, m)
    ensures |ordered| == |m|
  {
    ordered := [];
    var listed: map<string, real> := map[];
    var rest := m.Keys;
    while rest != {}
      invariant Placed(m, rest, listed, ordered)
      decreases rest
    {
      var u :| u in rest;
      PlaceOne(m, rest, listed, ordered, u);
      ordered := Insert(ordered, (u, m[u]));
      listed := listed[u := m[u]];
      rest := rest - {u};
    }
    assert listed == m;
  }
}
