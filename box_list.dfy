/**
 * The detector's candidate list `m_box_list` and the insertion it performs:
 * `insert(upper_bound(begin, end, box, greater_box), box)`.  The comparator
 * `greater_box` belongs to the esp-dl library; the model takes it as any
 * strict weak order, the requirement the C++ standard places on it.
 */
module BoxList {
  import opened DlTypes

  /** `greater` is asymmetric and negatively transitive: a strict weak order. */
  ghost predicate StrictWeakOrder(greater: (DetBox, DetBox) -> bool) {
    && (forall a, b :: greater(a, b) ==> !greater(b, a))
    && (forall a, b, c :: greater(a, c) ==> greater(a, b) || greater(b, c))
  }

  /** Sorted by `greater`: no element is preceded by one it should come before. */
  predicate SortedBy(greater: (DetBox, DetBox) -> bool, s: seq<DetBox>) {
    forall i, j :: 0 <= i < j < |s| ==> !greater(s[j], s[i])
  }

  /**
   * Where `upper_bound` stops: the first element `v` precedes, or the end.
   * Every element before that position is not preceded by `v`.
   */
  function UpperBoundPos(s: seq<DetBox>, v: DetBox, greater: (DetBox, DetBox) -> bool): (p: nat)
    ensures p <= |s|
    ensures forall i :: 0 <= i < p ==> !greater(v, s[i])
    ensures p < |s| ==> greater(v, s[p])
    decreases |s|
  {
    if s == [] then 0
    else if greater(v, s[0]) then 0
    else 1 + UpperBoundPos(s[1..], v, greater)
  }

  /** In a sorted list, the elements `v` precedes form a suffix. */
  lemma PrecededSuffix(s: seq<DetBox>, v: DetBox, greater: (DetBox, DetBox) -> bool, i: int, j: int)
    requires StrictWeakOrder(greater) && SortedBy(greater, s)
    requires 0 <= i < j < |s| && greater(v, s[i])
    ensures greater(v, s[j])
  {
    assert !greater(s[j], s[i]);
  }

  /**
   * `std::upper_bound` as a binary search over a sorted list: the position it
   * returns is the first element `v` precedes.
   */
  method UpperBound(s: seq<DetBox>, v: DetBox, greater: (DetBox, DetBox) -> bool) returns (p: nat)
    requires StrictWeakOrder(greater) && SortedBy(greater, s)
    ensures p == UpperBoundPos(s, v, greater)
  {
    var lo, hi := 0, |s|;
    while lo < hi
      invariant 0 <= lo <= hi <= |s|
      invariant forall i :: 0 <= i < lo ==> !greater(v, s[i])
      invariant forall i :: hi <= i < |s| ==> greater(v, s[i])
      decreases hi - lo
    {
      var mid := lo + (hi - lo) / 2;
      if greater(v, s[mid]) {
        forall i | mid <= i < |s| ensures greater(v, s[i]) {
          if i > mid { PrecededSuffix(s, v, greater, mid, i); }
        }
        hi := mid;
      } else {
        lo := mid + 1;
      }
    }
    p := lo;
    PositionUnique(s, v, greater, p);
  }

  /** Any position with "not preceded before, preceded at" is the one `UpperBoundPos` finds. */
  lemma PositionUnique(s: seq<DetBox>, v: DetBox, greater: (DetBox, DetBox) -> bool, p: nat)
    requires p <= |s|
    requires forall i :: 0 <= i < p ==> !greater(v, s[i])
    requires p < |s| ==> greater(v, s[p])
    ensures p == UpperBoundPos(s, v, greater)
  {
  }

  /** `m_box_list.insert(upper_bound(...), v)`. */
  function Insert(s: seq<DetBox>, v: DetBox, greater: (DetBox, DetBox) -> bool): seq<DetBox> {
    var p := UpperBoundPos(s, v, greater);
    s[..p] + [v] + s[p..]
  }

  /**
   * Insertion grows the list by one, keeps the old elements in their order
   * (removing `v` at its position gives back `s`), and puts `v` after every
   * element it does not precede.
   */
  lemma InsertShape(s: seq<DetBox>, v: DetBox, greater: (DetBox, DetBox) -> bool)
    ensures var r, p := Insert(s, v, greater), UpperBoundPos(s, v, greater);
      && |r| == |s| + 1
      && r[p] == v && r[..p] + r[p + 1..] == s
      && (forall i :: 0 <= i < p ==> !greater(v, r[i]))
      && multiset(r) == multiset(s) + multiset{v}
  {
    var p := UpperBoundPos(s, v, greater);
    SpliceFacts(s[..p], v, s[p..]);
    assert s[..p] + s[p..] == s;
    InsertCounts(s, v, greater);
  }

  /** What splicing `v` between `a` and `b` leaves where. */
  lemma SpliceFacts<T>(a: seq<T>, v: T, b: seq<T>)
    ensures var r := a + [v] + b;
      && r[|a|] == v && r[..|a|] == a && r[|a| + 1..] == b
      && forall i :: 0 <= i < |a| ==> r[i] == a[i]
  {
    var r := a + [v] + b;
    assert r[..|a|] == a && r[|a| + 1..] == b;
  }

  /** Insertion adds exactly one element, `v`. */
  lemma InsertCounts(s: seq<DetBox>, v: DetBox, greater: (DetBox, DetBox) -> bool)
    ensures |Insert(s, v, greater)| == |s| + 1
    ensures multiset(Insert(s, v, greater)) == multiset(s) + multiset{v}
  {
    var p := UpperBoundPos(s, v, greater);
    assert s[..p] + s[p..] == s;
    SpliceMultiset(s[..p], v, s[p..]);
  }

  /** Splicing `v` between two parts adds exactly `v` to their multiset. */
  lemma SpliceMultiset(a: seq<DetBox>, v: DetBox, b: seq<DetBox>)
    ensures multiset(a + [v] + b) == multiset(a + b) + multiset{v}
  {
  }

  /** Insertion at the upper bound keeps a sorted list sorted. */
  lemma InsertSorted(s: seq<DetBox>, v: DetBox, greater: (DetBox, DetBox) -> bool)
    requires StrictWeakOrder(greater) && SortedBy(greater, s)
    ensures SortedBy(greater, Insert(s, v, greater))
  {
    var r, p := Insert(s, v, greater), UpperBoundPos(s, v, greater);
    forall i, j | 0 <= i < j < |r| ensures !greater(r[j], r[i]) {
      if j == p {
        assert r[i] == s[i];
      } else if i == p {
        assert r[j] == s[j - 1];
        if j - 1 > p { PrecededSuffix(s, v, greater, p, j - 1); }
      } else {
        var i', j' := if i < p then i else i - 1, if j < p then j else j - 1;
        assert r[i] == s[i'] && r[j] == s[j'];
      }
    }
  }

  /** Inserting the candidates of `c` one after the other, in order. */
  function InsertAll(s: seq<DetBox>, c: seq<DetBox>, greater: (DetBox, DetBox) -> bool): seq<DetBox>
    decreases |c|
  {
    if c == [] then s else Insert(InsertAll(s, c[..|c| - 1], greater), c[|c| - 1], greater)
  }

  /** Inserting a sequence of candidates one by one keeps the list sorted. */
  lemma {:induction false} InsertAllSorted(s: seq<DetBox>, c: seq<DetBox>, greater: (DetBox, DetBox) -> bool)
    requires StrictWeakOrder(greater) && SortedBy(greater, s)
    ensures SortedBy(greater, InsertAll(s, c, greater))
    decreases |c|
  {
    if c != [] {
      var init, last := c[..|c| - 1], c[|c| - 1];
      InsertAllSorted(s, init, greater);
      InsertSorted(InsertAll(s, init, greater), last, greater);
    }
  }

  /** Inserting a sequence of candidates adds exactly those candidates. */
  lemma {:induction false} InsertAllContents(s: seq<DetBox>, c: seq<DetBox>, greater: (DetBox, DetBox) -> bool)
    ensures |InsertAll(s, c, greater)| == |s| + |c|
    ensures multiset(InsertAll(s, c, greater)) == multiset(s) + multiset(c)
    decreases |c|
  {
    if c != [] {
      var init, last := c[..|c| - 1], c[|c| - 1];
      var prev := InsertAll(s, init, greater);
      InsertAllContents(s, init, greater);
      InsertCounts(prev, last, greater);
      assert c == init + [last];
      assert multiset(c) == multiset(init) + multiset{last};
    }
  }

  /** Appending one candidate inserts it into the list built so far. */
  lemma InsertAllSnoc(s: seq<DetBox>, c: seq<DetBox>, v: DetBox, greater: (DetBox, DetBox) -> bool)
    ensures InsertAll(s, c + [v], greater) == Insert(InsertAll(s, c, greater), v, greater)
  {
    assert (c + [v])[..|c|] == c;
  }

}
