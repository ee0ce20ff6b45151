/** The list rules behind the activity history and the favourites of the
    translation page (src/app/page.tsx): the bounded prepend of a new entry,
    the favourite toggle, the pruning done by "clear history" and the
    favourites view. All of them are built on one order-preserving filter,
    the source's `Array.prototype.filter`. */
module HistoryRules {
  import opened Types

  /** At most this many entries are kept (`slice(0, 49)` plus the new head). */
  const MaxHistory: nat := 50

  function Min(a: int, b: int): int
  {
    if a <= b then a else b
  }

  /** `s.filter(p)`: the elements of `s` that satisfy `p`, in their order. */
  function Filter<T(==)>(s: seq<T>, p: T -> bool): (r: seq<T>)
    ensures |r| <= |s|
    ensures forall i :: 0 <= i < |r| ==> r[i] in s && p(r[i])
    ensures forall i :: 0 <= i < |s| && p(s[i]) ==> s[i] in r
  {
    if s == [] then []
    else (if p(s[0]) then [s[0]] else []) + Filter(s[1..], p)
  }

  /** Filtering a concatenation filters each part and keeps them in order:
      the filter never reorders. */
  lemma {:induction false} FilterConcat<T>(a: seq<T>, b: seq<T>, p: T -> bool)
    ensures Filter(a + b, p) == Filter(a, p) + Filter(b, p)
  {
    if a == [] {
      assert a + b == b;
    } else {
      assert (a + b)[0] == a[0];
      assert (a + b)[1..] == a[1..] + b;
      FilterConcat(a[1..], b, p);
    }
  }

  /** When every element passes, the filter returns its input unchanged. */
  lemma {:induction false} FilterKeepsAll<T>(s: seq<T>, p: T -> bool)
    requires forall i :: 0 <= i < |s| ==> p(s[i])
    ensures Filter(s, p) == s
  {
    if s != [] {
      FilterKeepsAll(s[1..], p);
    }
  }

  /** When no element passes, the filter is empty. */
  lemma FilterKeepsNone<T>(s: seq<T>, p: T -> bool)
    requires forall i :: 0 <= i < |s| ==> !p(s[i])
    ensures Filter(s, p) == []
  {
  }

  /** A filter of a list without duplicates has no duplicates. */
  lemma {:induction false} FilterKeepsNoDuplicates<T>(s: seq<T>, p: T -> bool)
    requires NoDuplicates(s)
    ensures NoDuplicates(Filter(s, p))
  {
    if s != [] {
      FilterKeepsNoDuplicates(s[1..], p);
      var rest := Filter(s[1..], p);
      assert s[0] !in s[1..];
      assert s[0] !in rest;
      if p(s[0]) {
        assert Filter(s, p) == [s[0]] + rest;
      } else {
        assert Filter(s, p) == rest;
      }
    }
  }

  predicate NoDuplicates<T(==)>(s: seq<T>)
  {
    forall i, j :: 0 <= i < j < |s| ==> s[i] != s[j]
  }

  /** Recording: `[newHistoryEntry, ...prevHistory.slice(0, 49)]`. */
  function Record(history: seq<HistoryEntry>, entry: HistoryEntry): (r: seq<HistoryEntry>)
    ensures |r| == Min(|history| + 1, MaxHistory)
    ensures r[0] == entry
    ensures forall i :: 1 <= i < |r| ==> r[i] == history[i - 1]
  {
    [entry] + history[..Min(|history|, MaxHistory - 1)]
  }

  /** Recording several entries one after another, `entries[0]` first. */
  function RecordAll(history: seq<HistoryEntry>, entries: seq<HistoryEntry>): seq<HistoryEntry>
    decreases |entries|
  {
    if entries == [] then history else RecordAll(Record(history, entries[0]), entries[1..])
  }

  function Reversed<T>(s: seq<T>): (r: seq<T>)
    ensures |r| == |s|
  {
    if s == [] then [] else Reversed(s[1..]) + [s[0]]
  }

  /** Truncating the tail of a concatenation and then its whole takes the
      same prefix as truncating the whole once. */
  lemma PrefixOfTruncated<T>(a: seq<T>, b: seq<T>, k: nat, m: nat)
    requires k <= |b| && m <= |a| + k
    ensures (a + b[..k])[..m] == (a + b)[..m]
  {
    assert forall i :: 0 <= i < m ==> (a + b[..k])[i] == (a + b)[i];
  }

  /** Bounded retention over any run of recordings: the history holds the
      newest entries first, followed by the old history, cut at 50 entries
      from the tail. (With no recording at all, a stored history longer than
      the bound is left as it is, hence the precondition.) */
  lemma {:induction false} RecordAllKeepsNewest(history: seq<HistoryEntry>, entries: seq<HistoryEntry>)
    requires entries != [] || |history| <= MaxHistory
    ensures RecordAll(history, entries)
         == (Reversed(entries) + history)[..Min(|entries| + |history|, MaxHistory)]
    decreases |entries|
  {
    if entries == [] {
      assert Reversed(entries) + history == history;
    } else {
      var e, rest := entries[0], entries[1..];
      var h1 := Record(history, e);
      RecordAllKeepsNewest(h1, rest);
      assert entries == [e] + rest;
      assert Reversed(entries) == Reversed(rest) + [e];
      assert h1 == ([e] + history)[..Min(|history| + 1, MaxHistory)];
      assert Reversed(entries) + history == Reversed(rest) + ([e] + history);
      PrefixOfTruncated(Reversed(rest), [e] + history, Min(|history| + 1, MaxHistory),
                        Min(|rest| + |h1|, MaxHistory));
    }
  }

  // ----- Favourites -----

  /** `id => id !== itemId` */
  function NotId(itemId: string): string -> bool
  {
    x => x != itemId
  }

  /** `handleToggleFavorite`: a present id is removed wherever it occurs, an
      absent one is appended at the end. */
  function Toggle(favorites: seq<string>, itemId: string): (r: seq<string>)
    ensures itemId in favorites ==> itemId !in r
    ensures itemId in favorites ==> forall x :: x != itemId ==> (x in r <==> x in favorites)
    ensures itemId !in favorites ==> r == favorites + [itemId]
  {
    if itemId in favorites then Filter(favorites, NotId(itemId)) else favorites + [itemId]
  }

  /** Toggling an absent id twice gives back the original list. */
  lemma ToggleTwiceRestores(favorites: seq<string>, itemId: string)
    requires itemId !in favorites
    ensures Toggle(Toggle(favorites, itemId), itemId) == favorites
  {
    assert itemId in favorites + [itemId];
    FilterConcat(favorites, [itemId], NotId(itemId));
    FilterKeepsAll(favorites, NotId(itemId));
    assert Filter([itemId], NotId(itemId)) == [];
  }

  /** Toggling keeps a favourites list free of duplicates. */
  lemma TogglePreservesNoDuplicates(favorites: seq<string>, itemId: string)
    requires NoDuplicates(favorites)
    ensures NoDuplicates(Toggle(favorites, itemId))
  {
    if itemId in favorites {
      FilterKeepsNoDuplicates(favorites, NotId(itemId));
    } else {
      var r := favorites + [itemId];
      forall i, j | 0 <= i < j < |r| ensures r[i] != r[j] {
        if j == |favorites| {
          assert r[i] == favorites[i];
        }
      }
    }
  }

  /** `history.find(h => h.id === favId)` finds something. */
  predicate HasEntryWithId(history: seq<HistoryEntry>, id: string)
  {
    exists i :: 0 <= i < |history| && history[i].id == id
  }

  /** `favId => !history.find(h => h.id === favId)` */
  function NotInHistory(history: seq<HistoryEntry>): string -> bool
  {
    fid => !HasEntryWithId(history, fid)
  }

  /** The favourites left by `handleClearHistory`: exactly the ids that no
      entry of the history being cleared carries. */
  function PruneFavorites(favorites: seq<string>, history: seq<HistoryEntry>): (r: seq<string>)
    ensures forall x :: x in r <==> x in favorites && !HasEntryWithId(history, x)
    ensures forall e :: e in history ==> e.id !in r
  {
    Filter(favorites, NotInHistory(history))
  }

  /** Ids unrelated to the cleared history all survive, in their order. */
  lemma PruneKeepsUnrelatedFavorites(favorites: seq<string>, history: seq<HistoryEntry>)
    requires forall i :: 0 <= i < |favorites| ==> !HasEntryWithId(history, favorites[i])
    ensures PruneFavorites(favorites, history) == favorites
  {
    FilterKeepsAll(favorites, NotInHistory(history));
  }

  /** Pruning works piecewise, so it never reorders the survivors. */
  lemma PruneConcat(a: seq<string>, b: seq<string>, history: seq<HistoryEntry>)
    ensures PruneFavorites(a + b, history) == PruneFavorites(a, history) + PruneFavorites(b, history)
  {
    FilterConcat(a, b, NotInHistory(history));
  }

  /** In a mixed list, an id of the cleared history drops out from between
      its neighbours, and any other id stays exactly where it was among
      the survivors. */
  lemma PruneKeepsOthersInOrder(before: seq<string>, x: string, after: seq<string>, history: seq<HistoryEntry>)
    ensures HasEntryWithId(history, x) ==>
              PruneFavorites(before + [x] + after, history) == PruneFavorites(before, history) + PruneFavorites(after, history)
    ensures !HasEntryWithId(history, x) ==>
              PruneFavorites(before + [x] + after, history) == PruneFavorites(before, history) + [x] + PruneFavorites(after, history)
  {
    PruneConcat(before + [x], after, history);
    PruneConcat(before, [x], history);
    assert Filter([x], NotInHistory(history)) == (if HasEntryWithId(history, x) then [] else [x]) by {
      assert [x][1..] == [];
    }
  }

  /** `item => favorites.includes(item.id)` */
  function IsFavorite(favorites: seq<string>): HistoryEntry -> bool
  {
    (e: HistoryEntry) => e.id in favorites
  }

  /** `favoriteEntries`: the history entries whose id is a favourite. */
  function FavoriteView(history: seq<HistoryEntry>, favorites: seq<string>): (r: seq<HistoryEntry>)
    ensures |r| <= |history|
    ensures forall e :: e in r <==> e in history && e.id in favorites
  {
    Filter(history, IsFavorite(favorites))
  }

  /** The favourites view follows the history's order (newest first): it is
      compatible with splitting the history anywhere. */
  lemma FavoriteViewKeepsHistoryOrder(newer: seq<HistoryEntry>, older: seq<HistoryEntry>, favorites: seq<string>)
    ensures FavoriteView(newer + older, favorites) == FavoriteView(newer, favorites) + FavoriteView(older, favorites)
  {
    FilterConcat(newer, older, IsFavorite(favorites));
  }

  /** Favourites whose entries are gone (evicted, or never there) are ignored
      by the view. */
  lemma FavoriteViewIgnoresOrphans(history: seq<HistoryEntry>, favorites: seq<string>, orphan: string)
    requires !HasEntryWithId(history, orphan)
    ensures FavoriteView(history, favorites + [orphan]) == FavoriteView(history, favorites)
    decreases |history|
  {
    if history != [] {
      FavoriteViewIgnoresOrphans(history[1..], favorites, orphan);
      assert history[0].id != orphan;
    }
  }
}
