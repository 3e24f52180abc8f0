/** The reversed-domain trie: labels from the right, data where a registered domain ends. */
module Trie {
  import opened Base
  import opened Text
  import opened Domains

  datatype Node<T> = Node(data: Option<T>, children: map<string, Node<T>>)

  // -------------------------------------------------------------------------
  // Labels from the right
  // -------------------------------------------------------------------------

  /** Where the last label of `rest` starts. */
  function LastLabel(rest: string): (n: nat)
    ensures n <= |rest| && '.' !in rest[n..]
    ensures n > 0 ==> rest[n - 1] == '.'
  {
    if rest == [] || rest[|rest| - 1] == '.' then |rest| else LastLabel(rest[..|rest| - 1])
  }

  /** What is left of `rest` before its last label and the dot in front of it. */
  function BeforeLast(rest: string): (r: string)
    ensures |r| < |rest| || (r == [] && rest == [])
  {
    var n := LastLabel(rest);
    if n == 0 then [] else rest[..n - 1]
  }

  /** The labels of a domain from the right, as far as they are not empty. */
  function Path(rest: string): (r: seq<string>)
    decreases |rest|
  {
    var last := rest[LastLabel(rest)..];
    if last == [] then []
    else [last] + Path(BeforeLast(rest))
  }

  predicate IsEmpty<T>(n: Node<T>) {
    n.children == map[] && n.data.None?
  }

  // -------------------------------------------------------------------------
  // What a trie means
  // -------------------------------------------------------------------------

  /** The data registered for exactly this path. */
  function Lookup<T>(n: Node<T>, path: seq<string>): Option<T> {
    if path == [] then n.data
    else if path[0] in n.children then Lookup(n.children[path[0]], path[1..])
    else None
  }

  function Put<T>(n: Node<T>, path: seq<string>, value: T): Node<T>
    decreases |path|
  {
    if path == [] then n.(data := Some(value))
    else
      var child := if path[0] in n.children then n.children[path[0]] else Node(None, map[]);
      n.(children := n.children[path[0] := Put(child, path[1..], value)])
  }

  lemma {:induction false} PutThenLookup<T>(n: Node<T>, path: seq<string>, value: T, p: seq<string>)
    ensures Lookup(Put(n, path, value), p) == if p == path then Some(value) else Lookup(n, p)
    decreases |path|
  {
    if path != [] && p != [] && p[0] == path[0] {
      var child := if path[0] in n.children then n.children[path[0]] else Node(None, map[]);
      PutThenLookup(child, path[1..], value, p[1..]);
      assert p == [p[0]] + p[1..] && path == [path[0]] + path[1..];
    }
  }

  /** The walk down `path`, with what was seen last. */
  function Deepest<T>(n: Node<T>, path: seq<string>, best: Option<T>): Option<T>
    decreases |path|
  {
    if path == [] || path[0] !in n.children then best
    else
      var child := n.children[path[0]];
      Deepest(child, path[1..], if child.data.Some? then child.data else best)
  }

  /** The walk ends with the data of the longest nonempty prefix that has any. */
  lemma {:induction false} DeepestIsLongest<T>(n: Node<T>, path: seq<string>, best: Option<T>)
    ensures (exists k :: LongestAt(n, path, k) && Deepest(n, path, best) == Lookup(n, path[..k]))
         || (Deepest(n, path, best) == best && forall k :: 0 < k <= |path| ==> Lookup(n, path[..k]) == None)
    decreases |path|
  {
    if path != [] && path[0] in n.children {
      var child := n.children[path[0]];
      var below := if child.data.Some? then child.data else best;
      forall k | 0 < k <= |path| ensures Lookup(n, path[..k]) == Lookup(child, path[1..][..k - 1]) {
        assert path[..k][1..] == path[1..][..k - 1];
      }
      DeepestIsLongest(child, path[1..], below);
      if k :| LongestAt(child, path[1..], k) && Deepest(child, path[1..], below) == Lookup(child, path[1..][..k]) {
        assert LongestAt(n, path, k + 1);
      } else if child.data.Some? {
        assert path[1..][..0] == [];
        assert LongestAt(n, path, 1);
      }
    }
  }

  ghost predicate LongestAt<T>(n: Node<T>, path: seq<string>, k: int) {
    0 < k <= |path| && Lookup(n, path[..k]).Some? && forall j :: k < j <= |path| ==> Lookup(n, path[..j]) == None
  }

  // -------------------------------------------------------------------------
  // The trie object
  // -------------------------------------------------------------------------

  class Trie<T> {
    var root: Node<T>

    constructor ()
      ensures root == Node(None, map[])
    {
      root := Node(None, map[]);
    }

    /** Registers a domain; one with an empty last label is ignored. */
    method Insert(domain: string, value: T)
      modifies this
      ensures root == if Path(domain) == [] then old(root) else Put(old(root), Path(domain), value)
    {
      var labels := Labels(domain);
      if labels != [] {
        root := Put(root, labels, value);
      }
    }
  }

  lemma {:induction false} MoveOver<T>(a: seq<T>, x: T, b: seq<T>)
    ensures a + ([x] + b) == (a + [x]) + b
  {
  }

  method Labels(domain: string) returns (labels: seq<string>)
    ensures labels == Path(domain)
  {
    labels := [];
    var rest := domain;
    while true
      invariant Path(domain) == labels + Path(rest)
      decreases |rest|
    {
      var last := rest[LastLabel(rest)..];
      if last == [] {
        break;
      }
      MoveOver(labels, last, Path(BeforeLast(rest)));
      labels, rest := labels + [last], BeforeLast(rest);
      if rest == [] {
        break;
      }
    }
  }

  /** Walks the trie once, remembering the data seen last. */
  method FindLongestSuffixMatch<T(==)>(root: Node<T>, domain: string) returns (best: Option<T>)
    ensures best == Deepest(root, Path(domain), root.data)
  {
    best := root.data;
    var node, rest := root, domain;
    while true
      invariant Deepest(root, Path(domain), root.data) == Deepest(node, Path(rest), best)
      decreases |rest|
    {
      var last := rest[LastLabel(rest)..];
      if last == [] {
        return;
      }
      assert Path(rest)[1..] == Path(BeforeLast(rest));
      if last !in node.children {
        return;
      }
      node, rest := node.children[last], BeforeLast(rest);
      if node.data.Some? {
        best := node.data;
      }
      if rest == [] {
        return;
      }
    }
  }

  // -------------------------------------------------------------------------
  // Suffix matching
  // -------------------------------------------------------------------------

  /** Some registered domain is the queried one or a parent of it. */
  ghost predicate Covers(domains: set<string>, query: string) {
    exists d :: d in domains && IsParent(d, query)
  }

  predicate IsParent(d: string, query: string) {
    Path(d) != [] && Path(d) <= Path(query)
  }

  /** A trie built from these registrations: data exactly at the paths of registered domains. */
  ghost predicate Holds<T(!new)>(n: Node<T>, m: map<string, T>) {
    (forall p :: HoldsAt(n, m, p)) && (IsEmpty(n) <==> forall d :: d in m ==> Path(d) == [])
  }

  ghost predicate HoldsAt<T(!new)>(n: Node<T>, m: map<string, T>, p: seq<string>) {
    match Lookup(n, p)
    case None => p == [] || forall d :: d in m ==> Path(d) != p
    case Some(v) => p != [] && exists d :: d in m && Path(d) == p && m[d] == v
  }

  lemma {:induction false} EmptyHolds<T(!new)>()
    ensures Holds<T>(Node(None, map[]), map[])
  {
  }

  lemma {:induction false} InsertHolds<T(!new)>(n: Node<T>, m: map<string, T>, domain: string, value: T)
    requires Holds(n, m) && (domain in m ==> m[domain] == value)
    ensures Holds(if Path(domain) == [] then n else Put(n, Path(domain), value), m[domain := value])
  {
    var n' := if Path(domain) == [] then n else Put(n, Path(domain), value);
    var m' := m[domain := value];
    if Path(domain) != [] {
      assert Path(domain)[0] in n'.children && domain in m';
    }
    assert forall d :: d in m ==> d in m';
    forall p ensures HoldsAt(n', m', p) {
      assert HoldsAt(n, m, p);
      if Path(domain) != [] {
        PutThenLookup(n, Path(domain), value, p);
      }
      if p == Path(domain) {
        assert domain in m' && m'[domain] == value;
      } else if Lookup(n, p).Some? {
        var d :| d in m && Path(d) == p && m[d] == Lookup(n, p).value;
        assert d in m' && m'[d] == m[d];
      }
    }
  }

  /** `d` is registered, covers the query, and no registered domain covers it more closely. */
  ghost predicate ClosestParent<T>(m: map<string, T>, d: string, query: string) {
    d in m && IsParent(d, query) && forall e :: e in m && IsParent(e, query) ==> |Path(e)| <= |Path(d)|
  }

  /** The walk finds something exactly if the query or a parent of it is registered, and then it
      finds the data of the closest one. */
  lemma {:induction false} WalkFindsClosest<T(!new)>(n: Node<T>, m: map<string, T>, query: string)
    requires Holds(n, m)
    ensures var r := Deepest(n, Path(query), n.data);
      && (r.Some? <==> Covers(m.Keys, query))
      && (r.Some? ==> exists d :: ClosestParent(m, d, query) && m[d] == r.value)
  {
    var path := Path(query);
    DeepestIsLongest(n, path, n.data);
    assert HoldsAt(n, m, []);
    forall e | e in m && IsParent(e, query) ensures Lookup(n, path[..|Path(e)|]).Some? {
      assert path[..|Path(e)|] == Path(e);
      assert HoldsAt(n, m, Path(e));
    }
    if k :| LongestAt(n, path, k) && Deepest(n, path, n.data) == Lookup(n, path[..k]) {
      assert HoldsAt(n, m, path[..k]);
      var d :| d in m && Path(d) == path[..k] && m[d] == Lookup(n, path[..k]).value;
      assert IsParent(d, query);
      assert ClosestParent(m, d, query);
    }
  }

  // -------------------------------------------------------------------------
  // A parent is a suffix at a label boundary, whatever the query
  // -------------------------------------------------------------------------

  ghost predicate AllLabels(t: string) {
    [] !in Split(t, '.')
  }

  predicate IsSuffixAtDot(d: string, query: string) {
    query == d || (|d| < |query| && query[|query| - |d| - 1..] == ['.'] + d)
  }

  lemma {:induction false} PathOfLabel(last: string)
    requires last != [] && '.' !in last
    ensures Path(last) == [last]
  {
    assert LastLabel(last) == 0 && last[0..] == last;
    assert Path([]) == [];
  }

  lemma {:induction false} LastLabelAfterDot(front: string, last: string)
    requires '.' !in last
    ensures LastLabel(front + ['.'] + last) == |front| + 1
  {
    var t := front + ['.'] + last;
    var n := LastLabel(t);
    assert forall k :: |front| < k < |t| ==> t[k] == last[k - |front| - 1];
    assert forall k :: n <= k < |t| ==> t[k] in t[n..];
    assert t[|front|] == '.';
  }

  /** The walk takes the last label and goes on with what stands before the dot. */
  lemma {:induction false} PathStep(front: string, last: string)
    requires last != [] && '.' !in last
    ensures Path(front + ['.'] + last) == [last] + Path(front)
  {
    LastLabelAfterDot(front, last);
    var t := front + ['.'] + last;
    assert t[..|front|] == front && t[|front| + 1..] == last;
    assert BeforeLast(t) == front;
  }

  lemma {:induction false} Regroup<T>(a: seq<T>, b: seq<T>, c: seq<T>)
    ensures a + b + c == a + (b + c)
  {
  }

  /** A domain of nonempty labels is one label, or a shorter such domain, a dot and one label. */
  lemma {:induction false} LabelsFromTheRight(d: string)
    requires AllLabels(d)
    ensures var n := LastLabel(d);
      && d[n..] != []
      && (n > 0 ==> d == BeforeLast(d) + ['.'] + d[n..] && AllLabels(BeforeLast(d)))
  {
    var n := LastLabel(d);
    SplitNone(d[n..], '.');
    if n > 0 {
      assert d == d[..n - 1] + ['.'] + d[n..];
      SplitConcat(d[..n - 1], '.', d[n..]);
      assert d[n..] in Split(d, '.');
    } else {
      assert d[0..] == d;
    }
  }

  /** A walk that has used up the labels of `d` goes on with what stands before them. */
  lemma {:induction false} PathGoesOn(a: string, d: string)
    requires AllLabels(d)
    ensures Path(a + ['.'] + d) == Path(d) + Path(a)
    decreases |d|
  {
    var last := d[LastLabel(d)..];
    LabelsFromTheRight(d);
    if LastLabel(d) == 0 {
      assert last == d;
      PathOfLabel(d);
      PathStep(a, d);
    } else {
      var before := BeforeLast(d);
      var longer := a + ['.'] + before;
      Regroup(a + ['.'], before, ['.'] + last);
      Regroup(before, ['.'], last);
      Regroup(longer, ['.'], last);
      PathGoesOn(a, before);
      PathStep(before, last);
      PathStep(longer, last);
      Regroup([last], Path(before), Path(a));
    }
  }

  /** The same label after both keeps one the end of the other. */
  lemma {:induction false} SuffixGoesOn(d: string, query: string, last: string)
    requires IsSuffixAtDot(d, query)
    ensures IsSuffixAtDot(d + ['.'] + last, query + ['.'] + last)
  {
    if query != d {
      var a := query[..|query| - |d| - 1];
      assert query == a + (['.'] + d);
      assert query + ['.'] + last == a + (['.'] + (d + ['.'] + last));
    }
  }

  lemma {:induction false} LastLabelIsSuffix(query: string)
    ensures var m := LastLabel(query);
      && query == (if m > 0 then BeforeLast(query) + ['.'] else []) + query[m..]
      && IsSuffixAtDot(query[m..], query)
  {
    var m := LastLabel(query);
    if m > 0 {
      assert query[m - 1..] == ['.'] + query[m..];
    } else {
      assert query[0..] == query;
    }
  }

  lemma {:induction false} ParentEnds(d: string, query: string)
    requires AllLabels(d) && IsParent(d, query)
    ensures IsSuffixAtDot(d, query)
    decreases |d|
  {
    LabelsFromTheRight(d);
    LastLabelIsSuffix(query);
    assert Path(d)[0] == Path(query)[0];
    if LastLabel(d) == 0 {
      assert d[0..] == d;
    } else {
      var b, q := BeforeLast(d), BeforeLast(query);
      LabelsFromTheRight(b);
      PathStep(b, d[LastLabel(d)..]);
      assert Path(b) == Path(d)[1..] && Path(q) == Path(query)[1..];
      assert Path([]) == [];
      ParentEnds(b, q);
      SuffixGoesOn(b, q, d[LastLabel(d)..]);
    }
  }

  /** A domain of nonempty labels matches exactly itself and what ends in a dot and it. */
  lemma {:induction false} ParentIsSuffix(d: string, query: string)
    requires AllLabels(d)
    ensures IsParent(d, query) <==> IsSuffixAtDot(d, query)
  {
    if IsSuffixAtDot(d, query) {
      LabelsFromTheRight(d);
      if query != d {
        var a := query[..|query| - |d| - 1];
        assert query == a + ['.'] + d;
        PathGoesOn(a, d);
      }
    }
    if IsParent(d, query) {
      ParentEnds(d, query);
    }
  }

  /** Validated entries match exactly themselves and their subdomains, in any query. */
  lemma {:induction false} ValidatedEntryMatches(d: string, query: string)
    requires IsHostname(d)
    ensures IsParent(d, query) <==> IsSuffixAtDot(d, query)
  {
    HostnameLabels(d);
    ParentIsSuffix(d, query);
  }
}
