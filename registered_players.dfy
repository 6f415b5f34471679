/** The static "Registered Players" page: a search over a fixed list of
    entrants, a per-category tally, and the occupancy of the 24 seats. */
module RegisteredPlayers {
  import Text
  import Filtering

  datatype ListedPlayer = ListedPlayer(id: nat, name: string, category: string, seed: nat)

  /** The entrants as listed on the page, in listing order. */
  const RegisteredList: seq<ListedPlayer> := [
    ListedPlayer(1, "Monday Christopher", "Intermediate", 1),
    ListedPlayer(2, "Ben Humbe", "Intermediate", 2),
    ListedPlayer(3, "John Aiyedun", "Masters", 3),
    ListedPlayer(4, "Sophia Ekeruche", "Intermediate", 4),
    ListedPlayer(5, "Charles Uzamere", "Intermediate", 5),
    ListedPlayer(6, "Julius Adeyemi", "Intermediate", 6),
    ListedPlayer(7, "Segun Durojaiye", "Masters", 7),
    ListedPlayer(8, "Adowei Ebikeme", "Intermediate", 8),
    ListedPlayer(9, "Olumide Oyejide", "Masters", 9),
    ListedPlayer(10, "David Ojih", "Masters", 10),
    ListedPlayer(11, "Hassan Wasiu", "Masters", 11),
    ListedPlayer(12, "Ewruje James", "Masters", 12),
    ListedPlayer(13, "Bukunmi Afolayan", "Intermediate", 13),
    ListedPlayer(14, "Kareem Jamiu", "Intermediate", 14),
    ListedPlayer(15, "Ezinna Lovejoy", "Opens", 15),
    ListedPlayer(16, "Benjamin Akpotu", "Intermediate", 16),
    ListedPlayer(17, "Anthony Odok", "Masters", 17),
    ListedPlayer(18, "Cyril Umebiye", "Masters", 18),
    ListedPlayer(19, "Tunde Saporu", "Masters", 19),
    ListedPlayer(20, "Ibukun Agbelekale", "Opens", 20),
    ListedPlayer(21, "Effiong Bassey", "Intermediate", 21),
    ListedPlayer(22, "Sunday Ituah", "Intermediate", 22)
  ]

  /** The number of seats shown as the capacity. */
  const Capacity := 24

  // ---- Search ----

  /** The lowercased name contains the lowercased search term. */
  predicate NameMatches(p: ListedPlayer, term: string)
  {
    Text.Includes(Text.Lower(p.name), Text.Lower(term))
  }

  /** `filteredPlayers`: the entrants whose name matches, in listing order. */
  function FilterByName(players: seq<ListedPlayer>, term: string): (r: seq<ListedPlayer>)
    ensures |r| <= |players|
    ensures forall p :: p in r <==> p in players && NameMatches(p, term)
    ensures Filtering.IsSubsequence(r, players)
    ensures forall p :: multiset(r)[p] == if NameMatches(p, term) then multiset(players)[p] else 0
  {
    var keep := (p: ListedPlayer) => NameMatches(p, term);
    Filtering.FilterIsSubsequence(players, keep);
    forall p ensures multiset(Filtering.Filter(players, keep))[p] == if keep(p) then multiset(players)[p] else 0 {
      Filtering.FilterMultiplicity(players, keep, p);
    }
    Filtering.Filter(players, keep)
  }

  /** An empty search keeps every entrant. */
  lemma EmptySearchKeepsAll(players: seq<ListedPlayer>)
    ensures FilterByName(players, "") == players
  {
    var keep := (p: ListedPlayer) => NameMatches(p, "");
    forall p | p in players ensures keep(p) {
      Text.IncludesEmpty(Text.Lower(p.name));
    }
    Filtering.FilterKeepsAll(players, keep);
  }

  /** The "No players found" notice: `filteredPlayers.length === 0 && searchTerm`.
      It is shown exactly when the search is non-empty and no entrant's
      name matches it. */
  predicate NoMatchesNoticeShown(players: seq<ListedPlayer>, term: string): (b: bool)
    ensures b <==> term != "" && forall p :: p in players ==> !NameMatches(p, term)
  {
    var shown := FilterByName(players, term);
    assert shown != [] ==> shown[0] in shown;
    |shown| == 0 && term != ""
  }

  // ---- Category distribution ----

  /** `player.category || 'Unknown'`: an empty category is tallied as Unknown. */
  function CategoryOf(p: ListedPlayer): (c: string)
    ensures c != ""
    ensures p.category == "" ==> c == "Unknown"
    ensures p.category != "" ==> c == p.category
  {
    if p.category == "" then "Unknown" else p.category
  }

  /** The number of entrants tallied under category c. */
  function Count(players: seq<ListedPlayer>, c: string): nat
  {
    if players == [] then 0
    else Count(players[..|players| - 1], c) + (if CategoryOf(players[|players| - 1]) == c then 1 else 0)
  }

  /** The dictionary the `reduce` accumulates: `acc[category] = (acc[category] || 0) + 1`
      for each entrant in turn. */
  function Tally(players: seq<ListedPlayer>): (acc: map<string, nat>)
    ensures "" !in acc
    ensures players != [] ==> CategoryOf(players[|players| - 1]) in acc
  {
    if players == [] then map[]
    else
      var acc := Tally(players[..|players| - 1]);
      var c := CategoryOf(players[|players| - 1]);
      acc[c := (if c in acc then acc[c] else 0) + 1]
  }

  /** The order of the dictionary's keys: the order in which each category
      was first added, which is the order `Object.entries` lists them in. */
  function KeyOrder(players: seq<ListedPlayer>): (keys: seq<string>)
    ensures |keys| <= |players|
    ensures forall k :: k in keys ==> k != ""
  {
    if players == [] then []
    else
      var keys := KeyOrder(players[..|players| - 1]);
      var c := CategoryOf(players[|players| - 1]);
      if c in keys then keys else keys + [c]
  }

  /** No category occurs twice in a list of categories. */
  predicate Distinct(keys: seq<string>)
  {
    forall i, j :: 0 <= i < j < |keys| ==> keys[i] != keys[j]
  }

  /** The tally's keys, in order, are distinct and are its domain; each
      key maps to the category's count, which is at least one. */
  lemma {:induction false} TallyFacts(players: seq<ListedPlayer>)
    ensures Distinct(KeyOrder(players))
    ensures forall c :: c in Tally(players) <==> c in KeyOrder(players)
    ensures forall c :: c in Tally(players) ==> Tally(players)[c] == Count(players, c) >= 1
    ensures forall c :: c !in Tally(players) ==> Count(players, c) == 0
  {
    if players != [] {
      TallyFacts(players[..|players| - 1]);
    }
  }

  datatype CategoryCount = CategoryCount(category: string, count: nat)

  /** `Object.entries(acc).map(...)` for the given keys, in their order. */
  function Entries(keys: seq<string>, acc: map<string, nat>): (r: seq<CategoryCount>)
    requires forall k :: k in keys ==> k in acc
    ensures |r| == |keys|
    ensures forall i :: 0 <= i < |keys| ==> r[i] == CategoryCount(keys[i], acc[keys[i]])
  {
    if keys == [] then [] else [CategoryCount(keys[0], acc[keys[0]])] + Entries(keys[1..], acc)
  }

  /** `getCategoryStats` as a value: the entries of the finished tally. */
  function CategoryStatsOf(players: seq<ListedPlayer>): seq<CategoryCount>
  {
    TallyFacts(players);
    Entries(KeyOrder(players), Tally(players))
  }

  function SumCounts(stats: seq<CategoryCount>): nat
  {
    if stats == [] then 0 else stats[0].count + SumCounts(stats[1..])
  }

  lemma {:induction false} SumCountsAppend(a: seq<CategoryCount>, b: seq<CategoryCount>)
    ensures SumCounts(a + b) == SumCounts(a) + SumCounts(b)
  {
    if a == [] {
      assert a + b == b;
    } else {
      assert (a + b)[1..] == a[1..] + b;
      SumCountsAppend(a[1..], b);
    }
  }

  /** Entries only look at the keys they list. */
  lemma {:induction false} EntriesAgree(keys: seq<string>, m: map<string, nat>, m': map<string, nat>)
    requires forall k :: k in keys ==> k in m && k in m' && m[k] == m'[k]
    ensures Entries(keys, m) == Entries(keys, m')
  {
  }

  /** Bumping one listed key by one bumps the sum by one. */
  lemma {:induction false} SumCountsBump(keys: seq<string>, m: map<string, nat>, c: string)
    requires forall k :: k in keys ==> k in m
    requires Distinct(keys) && c in keys
    ensures SumCounts(Entries(keys, m[c := m[c] + 1])) == SumCounts(Entries(keys, m)) + 1
  {
    var m' := m[c := m[c] + 1];
    if keys[0] == c {
      assert c !in keys[1..];
      EntriesAgree(keys[1..], m, m');
    } else {
      SumCountsBump(keys[1..], m, c);
    }
  }

  /** Appending a fresh key with count one bumps the sum by one. */
  lemma SumCountsNewKey(keys: seq<string>, m: map<string, nat>, c: string)
    requires forall k :: k in keys ==> k in m
    requires c !in keys
    ensures SumCounts(Entries(keys + [c], m[c := 1])) == SumCounts(Entries(keys, m)) + 1
  {
    var m' := m[c := 1];
    assert Entries(keys + [c], m') == Entries(keys, m') + [CategoryCount(c, 1)];
    EntriesAgree(keys, m, m');
    SumCountsAppend(Entries(keys, m'), [CategoryCount(c, 1)]);
  }

  /** The per-category counts add up to the number of entrants. */
  lemma {:induction false} CategoryStatsSum(players: seq<ListedPlayer>)
    ensures SumCounts(CategoryStatsOf(players)) == |players|
  {
    if players != [] {
      var prefix := players[..|players| - 1];
      CategoryStatsSum(prefix);
      TallyFacts(prefix);
      var c := CategoryOf(players[|players| - 1]);
      var m := Tally(prefix);
      assert Tally(players) == m[c := (if c in m then m[c] else 0) + 1];
      assert KeyOrder(players) == if c in KeyOrder(prefix) then KeyOrder(prefix) else KeyOrder(prefix) + [c];
      TallyFacts(players);
      assert CategoryStatsOf(players) == Entries(KeyOrder(players), Tally(players));
      assert CategoryStatsOf(prefix) == Entries(KeyOrder(prefix), m);
      if c in KeyOrder(prefix) {
        SumCountsBump(KeyOrder(prefix), Tally(prefix), c);
      } else {
        SumCountsNewKey(KeyOrder(prefix), Tally(prefix), c);
      }
    }
  }

  /** Each entry names a distinct, non-empty category with a count of at
      least one that equals the number of entrants in it, and every
      entrant's category appears. */
  lemma CategoryStatsFacts(players: seq<ListedPlayer>)
    ensures var stats := CategoryStatsOf(players);
            && (forall i, j :: 0 <= i < j < |stats| ==> stats[i].category != stats[j].category)
            && (forall i :: 0 <= i < |stats| ==> stats[i].category != "")
            && (forall i :: 0 <= i < |stats| ==> stats[i].count == Count(players, stats[i].category) >= 1)
            && (forall p :: p in players ==> exists i :: 0 <= i < |stats| && stats[i].category == CategoryOf(p))
  {
    TallyFacts(players);
    var stats := CategoryStatsOf(players);
    forall p | p in players ensures exists i :: 0 <= i < |stats| && stats[i].category == CategoryOf(p) {
      var k :| 0 <= k < |players| && players[k] == p;
      CountPositive(players, k);
      var keys := KeyOrder(players);
      var i :| 0 <= i < |keys| && keys[i] == CategoryOf(p);
      assert stats[i].category == CategoryOf(p);
    }
    forall i | 0 <= i < |stats| ensures stats[i].category != "" {
      CountOfEmpty(players);
    }
  }

  /** An entrant's own category has a positive count. */
  lemma {:induction false} CountPositive(players: seq<ListedPlayer>, k: nat)
    requires k < |players|
    ensures Count(players, CategoryOf(players[k])) >= 1
  {
    var prefix := players[..|players| - 1];
    if k < |players| - 1 {
      assert prefix[k] == players[k];
      CountPositive(prefix, k);
    }
  }

  /** Nothing is tallied under the empty category. */
  lemma {:induction false} CountOfEmpty(players: seq<ListedPlayer>)
    ensures Count(players, "") == 0
  {
    if players != [] {
      CountOfEmpty(players[..|players| - 1]);
    }
  }

  /** `getCategoryStats`: one pass over the entrants updating the dictionary
      in place, then its entries. */
  method CategoryStats(players: seq<ListedPlayer>) returns (stats: seq<CategoryCount>)
    ensures stats == CategoryStatsOf(players)
  {
    var acc: map<string, nat> := map[];
    var keys: seq<string> := [];
    for i := 0 to |players|
      invariant acc == Tally(players[..i])
      invariant keys == KeyOrder(players[..i])
    {
      assert players[..i + 1][..i] == players[..i];
      var category := CategoryOf(players[i]);
      if category !in acc {
        keys := keys + [category];
      }
      TallyFacts(players[..i]);
      acc := acc[category := (if category in acc then acc[category] else 0) + 1];
    }
    assert players[..|players|] == players;
    TallyFacts(players);
    stats := Entries(keys, acc);
  }

  // ---- Occupancy ----

  /** `Math.round(count / 24 * 100)`: the percentage of seats taken, with
      halves rounded up. */
  function Occupancy(count: nat): (r: nat)
    ensures Capacity * r <= 100 * count + Capacity / 2 < Capacity * r + Capacity
  {
    (100 * count + Capacity / 2) / Capacity
  }

  /** With the listed entrants the page shows 92%. */
  lemma ListedOccupancy()
    ensures |RegisteredList| == 22
    ensures Occupancy(|RegisteredList|) == 92
  {
  }
}
