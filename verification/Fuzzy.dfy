/** Greedy subsequence matching and ranking. */
module Fuzzy {
  import opened Base
  import opened Sorting
  import HighlightHosts

  datatype FuzzyMatch = FuzzyMatch(score: int, positions: seq<nat>)

  // -------------------------------------------------------------------------
  // Embeddings
  // -------------------------------------------------------------------------

  /** The characters of `q` found in `t` at increasing positions. */
  ghost predicate Embeds(q: string, t: string, positions: seq<nat>) {
    && |positions| == |q|
    && (forall i :: 0 <= i < |q| ==> positions[i] < |t| && t[positions[i]] == q[i])
    && (forall i, j :: 0 <= i < j < |q| ==> positions[i] < positions[j])
  }

  /** `positions` embeds `q`, and no embedding has any character earlier. */
  ghost predicate LeastEmbedding(q: string, t: string, positions: seq<nat>) {
    Embeds(q, t, positions) && forall e :: Embeds(q, t, e) ==> Below(positions, e)
  }

  ghost predicate Below(a: seq<nat>, b: seq<nat>) {
    |a| <= |b| && forall i :: 0 <= i < |a| ==> a[i] <= b[i]
  }

  // -------------------------------------------------------------------------
  // Score
  // -------------------------------------------------------------------------

  /** The i-th position comes right after the one before. */
  predicate Follows(positions: seq<nat>, i: nat) {
    0 < i < |positions| && positions[i] == positions[i - 1] + 1
  }

  /** The i-th position is at the start of the text or behind a dot, a hyphen or an underscore. */
  predicate StartsSegment(t: string, positions: seq<nat>, i: nat) {
    i < |positions| && positions[i] < |t| && (positions[i] == 0 || t[positions[i] - 1] in {'.', '-', '_'})
  }

  /** The numbers below `n` that have a property. */
  ghost function FirstOnes(has: nat -> bool, n: nat): set<nat> {
    set i: nat | i < n && has(i)
  }

  lemma {:induction false} OneMoreBelow(has: nat -> bool, n: nat)
    ensures |FirstOnes(has, n + 1)| == |FirstOnes(has, n)| + if has(n) then 1 else 0
  {
    if has(n) {
      assert FirstOnes(has, n + 1) == FirstOnes(has, n) + {n};
    } else {
      assert FirstOnes(has, n + 1) == FirstOnes(has, n);
    }
  }

  ghost function Following(positions: seq<nat>, n: nat): set<nat> {
    FirstOnes((i: nat) => Follows(positions, i), n)
  }

  ghost function Starting(t: string, positions: seq<nat>, n: nat): set<nat> {
    FirstOnes((i: nat) => StartsSegment(t, positions, i), n)
  }

  /** Ten points for each position right after the one before, five for each one at the start of a
      segment, less the first position. */
  ghost predicate IsScore(t: string, m: FuzzyMatch) {
    m.positions != [] && (forall i :: 0 <= i < |m.positions| ==> m.positions[i] < |t|)
    && m.score == 10 * |Following(m.positions, |m.positions|)| + 5 * |Starting(t, m.positions, |m.positions|)|
                    - m.positions[0]
  }

  lemma {:induction false} OneMorePosition(t: string, positions: seq<nat>, n: nat)
    ensures |Following(positions, n + 1)| == |Following(positions, n)| + if Follows(positions, n) then 1 else 0
    ensures |Starting(t, positions, n + 1)|
         == |Starting(t, positions, n)| + if StartsSegment(t, positions, n) then 1 else 0
  {
    OneMoreBelow((i: nat) => Follows(positions, i), n);
    OneMoreBelow((i: nat) => StartsSegment(t, positions, i), n);
  }

  // -------------------------------------------------------------------------
  // The matcher
  // -------------------------------------------------------------------------

  /** The first `c` at or after `from`. */
  method IndexOf(t: string, c: char, from: nat) returns (r: Option<nat>)
    ensures r.Some? ==> from <= r.value < |t| && t[r.value] == c && forall k :: from <= k < r.value ==> t[k] != c
    ensures r.None? ==> forall k :: from <= k < |t| ==> t[k] != c
  {
    var i := from;
    while i < |t|
      invariant from <= i && forall k :: from <= k < i && k < |t| ==> t[k] != c
    {
      if t[i] == c {
        return Some(i);
      }
      i := i + 1;
    }
    return None;
  }

  /** Succeeds exactly if the folded query is a subsequence of the folded text; the positions are
      the least possible, one by one. `lower` is the host's lower-casing, which never makes a
      nonempty text empty. */
  method Match(lower: string -> string, query: string, text: string) returns (r: Option<FuzzyMatch>)
    requires query != [] ==> lower(query) != []
    ensures query == [] ==> r == None
    ensures query != [] ==> (r.Some? <==> exists e :: Embeds(lower(query), lower(text), e))
    ensures r.Some? ==> LeastEmbedding(lower(query), lower(text), r.value.positions) && IsScore(lower(text), r.value)
  {
    if query == [] {
      return None;
    }
    var q, t := lower(query), lower(text);
    var positions := Greedy(q, t);
    if positions == None {
      return None;
    }
    var score := ScoreOf(t, positions.value);
    r := Some(FuzzyMatch(score, positions.value));
  }

  method Greedy(q: string, t: string) returns (r: Option<seq<nat>>)
    ensures r.Some? ==> LeastEmbedding(q, t, r.value)
    ensures r.None? ==> forall e :: !Embeds(q, t, e)
  {
    var positions: seq<nat>, cursor := [], 0;
    for i := 0 to |q|
      invariant LeastEmbedding(q[..i], t, positions)
      invariant cursor == if i == 0 then 0 else positions[i - 1] + 1
    {
      var hit := IndexOf(t, q[i], cursor);
      assert q[..i + 1] == q[..i] + [q[i]];
      if hit == None {
        forall e ensures !Embeds(q, t, e) {
          NoRoom(q, t, positions, i, cursor, e);
        }
        return None;
      }
      ExtendLeast(q[..i], q[i], t, positions, hit.value, cursor);
      positions, cursor := positions + [hit.value], hit.value + 1;
    }
    assert q[..|q|] == q;
    r := Some(positions);
  }

  lemma {:induction false} EmbedsPrefix(q: string, t: string, e: seq<nat>, i: nat)
    requires Embeds(q, t, e) && i <= |q|
    ensures Embeds(q[..i], t, e[..i])
  {
  }

  /** The next character of any embedding lies at or after the cursor. */
  lemma {:induction false} NextNotBefore(q: string, t: string, positions: seq<nat>, i: nat, cursor: nat, e: seq<nat>)
    requires i < |q| && Embeds(q, t, e) && LeastEmbedding(q[..i], t, positions)
    requires cursor == if i == 0 then 0 else positions[i - 1] + 1
    ensures cursor <= e[i]
  {
    EmbedsPrefix(q, t, e, i);
    assert Below(positions, e[..i]);
    if i > 0 {
      assert positions[i - 1] <= e[..i][i - 1] == e[i - 1] < e[i];
    }
  }

  lemma {:induction false} NoRoom(q: string, t: string, positions: seq<nat>, i: nat, cursor: nat, e: seq<nat>)
    requires i < |q| && LeastEmbedding(q[..i], t, positions)
    requires cursor == if i == 0 then 0 else positions[i - 1] + 1
    requires forall k :: cursor <= k < |t| ==> t[k] != q[i]
    ensures !Embeds(q, t, e)
  {
    if Embeds(q, t, e) {
      NextNotBefore(q, t, positions, i, cursor, e);
    }
  }

  lemma {:induction false} ExtendLeast(q: string, c: char, t: string, positions: seq<nat>, hit: nat, cursor: nat)
    requires LeastEmbedding(q, t, positions)
    requires cursor == if q == [] then 0 else positions[|q| - 1] + 1
    requires cursor <= hit < |t| && t[hit] == c && forall k :: cursor <= k < hit ==> t[k] != c
    ensures LeastEmbedding(q + [c], t, positions + [hit])
  {
    assert (q + [c])[..|q|] == q;
    assert Embeds(q + [c], t, positions + [hit]) by {
      assert forall i :: 0 <= i < |q| ==> positions[i] < cursor;
    }
    forall e | Embeds(q + [c], t, e) ensures Below(positions + [hit], e) {
      NextNotBefore(q + [c], t, positions, |q|, cursor, e);
      EmbedsPrefix(q + [c], t, e, |q|);
      assert Below(positions, e[..|q|]);
      assert hit <= e[|q|];
    }
  }

  method ScoreOf(t: string, positions: seq<nat>) returns (score: int)
    requires positions != [] && forall i :: 0 <= i < |positions| ==> positions[i] < |t|
    ensures IsScore(t, FuzzyMatch(score, positions))
  {
    score := 0;
    assert Following(positions, 0) == {} && Starting(t, positions, 0) == {};
    for i := 0 to |positions|
      invariant score == 10 * |Following(positions, i)| + 5 * |Starting(t, positions, i)|
    {
      OneMorePosition(t, positions, i);
      if i > 0 && positions[i] == positions[i - 1] + 1 {
        score := score + 10;
      }
      var pos := positions[i];
      if pos == 0 || t[pos - 1] in ".-_" {
        score := score + 5;
      }
    }
    score := score - positions[0];
  }

  // -------------------------------------------------------------------------
  // Ranking
  // -------------------------------------------------------------------------

  datatype Ranked<T> = Ranked(item: T, index: nat, found: FuzzyMatch)

  /** Higher scores first; ties keep the input order. */
  predicate RankLe<T>(a: Ranked<T>, b: Ranked<T>) {
    a.found.score > b.found.score || (a.found.score == b.found.score && a.index <= b.index)
  }

  ghost predicate Matching(lower: string -> string, query: string, text: string) {
    exists e :: Embeds(lower(query), lower(text), e)
  }

  /** An entry for the k-th item with its match. */
  ghost predicate IsEntry<T>(lower: string -> string, query: string, items: seq<T>, getText: T -> string,
      x: Ranked<T>) {
    && x.index < |items| && x.item == items[x.index]
    && LeastEmbedding(lower(query), lower(getText(x.item)), x.found.positions)
    && IsScore(lower(getText(x.item)), x.found)
  }

  ghost predicate HasIndex<T(!new)>(s: set<Ranked<T>>, k: int) {
    exists x :: x in s && x.index == k
  }

  ghost predicate OnePerIndex<T(!new)>(s: set<Ranked<T>>) {
    forall x, y :: x in s && y in s && x.index == y.index ==> x == y
  }

  /** Exactly the matching items among the first `n`, each once. */
  ghost predicate Lists<T(!new)>(lower: string -> string, query: string, items: seq<T>, getText: T -> string, n: nat,
      s: set<Ranked<T>>)
    requires n <= |items|
  {
    && (forall x :: x in s ==> x.index < n && IsEntry(lower, query, items, getText, x))
    && OnePerIndex(s)
    && (forall k :: 0 <= k < n && Matching(lower, query, getText(items[k])) ==> HasIndex(s, k))
  }

  /** The ranking holds exactly the matching items, best score first, ties in input order. A blank
      query ranks nothing. */
  method Rank<T(!new)>(lower: string -> string, query: string, items: seq<T>, getText: T -> string)
    returns (ranked: seq<Ranked<T>>)
    requires query != [] ==> lower(query) != []
    ensures HighlightHosts.TrimStart(query) == [] ==> ranked == []
    ensures HighlightHosts.TrimStart(query) != [] ==>
              exists s :: Lists(lower, query, items, getText, |items|, s) && multiset(ranked) == multiset(s)
    ensures Sorted(RankLe, ranked) && NoDuplicates(ranked)
  {
    if HighlightHosts.TrimStart(query) == [] {
      return [];
    }
    var found: seq<Ranked<T>> := [];
    ghost var listed: set<Ranked<T>> := {};
    for i := 0 to |items|
      invariant Lists(lower, query, items, getText, i, listed)
      invariant multiset(found) == multiset(listed)
    {
      var m := Match(lower, query, getText(items[i]));
      if m.Some? {
        var x := Ranked(items[i], i, m.value);
        assert multiset(listed + {x}) == multiset(listed) + multiset{x};
        ListsOneMore(lower, query, items, getText, i, listed, x);
        found := found + [x];
        listed := listed + {x};
      }
    }
    RankLeIsOrder<T>();
    SortSorts(RankLe, found);
    ListingOfSet(Sort(RankLe, found), listed);
    ranked := Sort(RankLe, found);
  }

  lemma {:induction false} RankLeIsOrder<T(!new)>()
    ensures TotalPreorder<Ranked<T>>(RankLe)
  {
  }

  lemma {:induction false} ListsOneMore<T(!new)>(lower: string -> string, query: string, items: seq<T>,
      getText: T -> string, n: nat,
                              s: set<Ranked<T>>, x: Ranked<T>)
    requires n < |items| && Lists(lower, query, items, getText, n, s)
    requires x.index == n && IsEntry(lower, query, items, getText, x)
    ensures Lists(lower, query, items, getText, n + 1, s + {x})
  {
    NewIndex(s, x);
    forall k | 0 <= k < n + 1 && Matching(lower, query, getText(items[k])) ensures HasIndex(s + {x}, k) {
      assert k < n ==> HasIndex(s, k);
      IndexStays(s, x, k);
    }
  }

  lemma {:induction false} NewIndex<T(!new)>(s: set<Ranked<T>>, x: Ranked<T>)
    requires OnePerIndex(s) && forall y :: y in s ==> y.index < x.index
    ensures OnePerIndex(s + {x})
  {
  }

  lemma {:induction false} IndexStays<T(!new)>(s: set<Ranked<T>>, x: Ranked<T>, k: int)
    requires HasIndex(s, k) || k == x.index
    ensures HasIndex(s + {x}, k)
  {
    if k == x.index {
      assert x in s + {x};
    } else {
      var y :| y in s && y.index == k;
      assert y in s + {x};
    }
  }

  /** Read off a ranking: earlier entries score higher, or the same and come first in the input;
      an item is in it exactly if its text matches. */
  lemma {:induction false} RankingReads<T(!new)>(lower: string -> string, query: string, items: seq<T>,
      getText: T -> string,
                              s: set<Ranked<T>>, ranked: seq<Ranked<T>>)
    requires Lists(lower, query, items, getText, |items|, s) && multiset(ranked) == multiset(s)
        && Sorted(RankLe, ranked)
    ensures forall i, j :: 0 <= i < j < |ranked| ==>
              ranked[i].found.score > ranked[j].found.score
              || (ranked[i].found.score == ranked[j].found.score && ranked[i].index < ranked[j].index)
    ensures forall k :: 0 <= k < |items| ==>
              (Matching(lower, query, getText(items[k])) <==> exists x :: x in ranked && x.index == k)
  {
    ListingOfSet(ranked, s);
    forall i, j | 0 <= i < j < |ranked|
      ensures ranked[i].found.score > ranked[j].found.score
           || (ranked[i].found.score == ranked[j].found.score && ranked[i].index < ranked[j].index)
    {
      assert RankLe(ranked[i], ranked[j]) && ranked[i] in s && ranked[j] in s;
    }
    forall x | x in s ensures Matching(lower, query, getText(items[x.index])) {
      assert Embeds(lower(query), lower(getText(x.item)), x.found.positions);
    }
  }
}
