/** Binary min-heaps as sequences: sifting, the heap operations built on it, and what they mean.
    `less` may be any strict order whose "not less" is a total preorder, so ties are allowed. */
module HeapOrder {

  ghost predicate TotalPreorder<V(!new)>(less: (V, V) -> bool) {
    && (forall a, b :: less(a, b) ==> !less(b, a))
    && (forall a, b, c :: !less(b, a) && !less(c, b) ==> !less(c, a))
  }

  function Parent(i: nat): nat
    requires 0 < i
  {
    (i - 1) / 2
  }

  ghost predicate InOrder<V>(less: (V, V) -> bool, s: seq<V>, i: nat)
    requires i < |s|
  {
    0 < i ==> !less(s[i], s[Parent(i)])
  }

  ghost predicate IsHeap<V>(less: (V, V) -> bool, s: seq<V>) {
    forall i: nat | i < |s| :: InOrder(less, s, i)
  }

  function Swap<V>(s: seq<V>, i: nat, j: nat): seq<V>
    requires i < |s| && j < |s|
  {
    s[i := s[j]][j := s[i]]
  }

  // ---------- sifting ----------

  /** Move the element at `i` towards the root while it is less than its parent. */
  function Up<V>(less: (V, V) -> bool, s: seq<V>, i: nat): (r: seq<V>)
    requires i < |s|
    ensures |r| == |s|
    decreases i
  {
    if 0 < i && less(s[i], s[Parent(i)]) then Up(less, Swap(s, i, Parent(i)), Parent(i)) else s
  }

  /** The least of `i` and its children: a child is chosen only if strictly less, the left one first. */
  function Head<V>(less: (V, V) -> bool, s: seq<V>, i: nat): (h: nat)
    requires i < |s|
    ensures h < |s| && (h == i || h == 2 * i + 1 || h == 2 * i + 2)
  {
    var l, r := 2 * i + 1, 2 * i + 2;
    var h := if l < |s| && less(s[l], s[i]) then l else i;
    if r < |s| && less(s[r], s[h]) then r else h
  }

  /** Move the element at `i` towards the leaves while a child is less than it. */
  function Down<V>(less: (V, V) -> bool, s: seq<V>, i: nat): (r: seq<V>)
    requires i < |s|
    ensures |r| == |s|
    decreases |s| - i
  {
    var h := Head(less, s, i);
    if h != i then Down(less, Swap(s, i, h), h) else s
  }

  /** The child with which an entry that sinks is exchanged: the left one if it is less than the entry, and the right
      one if it is less than the better of those two. */
  lemma HeadSteps<V>(less: (V, V) -> bool, s: seq<V>, i: nat)
    requires i < |s|
    ensures var left, right := 2 * i + 1, 2 * i + 2;
            var better := if left < |s| && less(s[left], s[i]) then left else i;
            Head(less, s, i) == if right < |s| && less(s[right], s[better]) then right else better
  {
  }

  /** Everything is in order except perhaps `i` with its parent, and the children of `i` are not less than
      that parent. */
  ghost predicate RisingAt<V>(less: (V, V) -> bool, s: seq<V>, i: nat)
    requires i < |s|
  {
    && (forall j: nat | j < |s| && j != i :: InOrder(less, s, j))
    && (0 < i ==> forall j: nat | 0 < j < |s| && Parent(j) == i :: !less(s[j], s[Parent(i)]))
  }

  /** Everything is in order except perhaps the children of `i` with `i`, and they are not less than its parent. */
  ghost predicate SinkingAt<V>(less: (V, V) -> bool, s: seq<V>, i: nat)
    requires i < |s|
  {
    && (forall j: nat | j < |s| && !(0 < j && Parent(j) == i) :: InOrder(less, s, j))
    && (0 < i ==> forall j: nat | 0 < j < |s| && Parent(j) == i :: !less(s[j], s[Parent(i)]))
  }

  lemma {:induction false} UpMakesHeap<V(!new)>(less: (V, V) -> bool, s: seq<V>, i: nat)
    requires TotalPreorder(less) && i < |s| && RisingAt(less, s, i)
    ensures IsHeap(less, Up(less, s, i))
    decreases i
  {
    if 0 < i && less(s[i], s[Parent(i)]) {
      var p, t := Parent(i), Swap(s, i, Parent(i));
      forall j: nat | j < |t| && j != p ensures InOrder(less, t, j) {
        assert InOrder(less, s, j) || j == i;
      }
      if 0 < p {
        assert InOrder(less, s, p);
        forall j: nat | 0 < j < |t| && Parent(j) == p ensures !less(t[j], t[Parent(p)]) {
          assert j != i ==> InOrder(less, s, j);
        }
      }
      UpMakesHeap(less, t, p);
    }
  }

  lemma {:induction false} DownMakesHeap<V(!new)>(less: (V, V) -> bool, s: seq<V>, i: nat)
    requires TotalPreorder(less) && i < |s| && SinkingAt(less, s, i)
    ensures IsHeap(less, Down(less, s, i))
    decreases |s| - i
  {
    var h := Head(less, s, i);
    if h != i {
      SinkOnce(less, s, i);
      DownMakesHeap(less, Swap(s, i, h), h);
    } else {
      forall j: nat | j < |s| ensures InOrder(less, s, j) {}
    }
  }

  lemma SinkOnce<V(!new)>(less: (V, V) -> bool, s: seq<V>, i: nat)
    requires TotalPreorder(less) && i < |s| && SinkingAt(less, s, i) && Head(less, s, i) != i
    ensures SinkingAt(less, Swap(s, i, Head(less, s, i)), Head(less, s, i))
  {
    var h := Head(less, s, i);
    var t := Swap(s, i, h);
    forall j: nat | j < |t| && !(0 < j && Parent(j) == h) ensures InOrder(less, t, j) {
      assert InOrder(less, s, j) || Parent(j) == i;
    }
    forall j: nat | 0 < j < |t| && Parent(j) == h ensures !less(t[j], t[Parent(h)]) {
      assert InOrder(less, s, j);
    }
  }

  lemma SwapKeepsAll<V>(s: seq<V>, i: nat, j: nat)
    requires i < |s| && j < |s|
    ensures multiset(Swap(s, i, j)) == multiset(s)
  {
  }

  lemma {:induction false} UpKeepsAll<V>(less: (V, V) -> bool, s: seq<V>, i: nat)
    requires i < |s|
    ensures multiset(Up(less, s, i)) == multiset(s)
    decreases i
  {
    if 0 < i && less(s[i], s[Parent(i)]) {
      SwapKeepsAll(s, i, Parent(i));
      UpKeepsAll(less, Swap(s, i, Parent(i)), Parent(i));
    }
  }

  lemma {:induction false} DownKeepsAll<V>(less: (V, V) -> bool, s: seq<V>, i: nat)
    requires i < |s|
    ensures multiset(Down(less, s, i)) == multiset(s)
    decreases |s| - i
  {
    var h := Head(less, s, i);
    if h != i {
      SwapKeepsAll(s, i, h);
      DownKeepsAll(less, Swap(s, i, h), h);
    }
  }

  // ---------- how far an element moves ----------

  function UpSwaps<V>(less: (V, V) -> bool, s: seq<V>, i: nat): nat
    requires i < |s|
    decreases i
  {
    if 0 < i && less(s[i], s[Parent(i)]) then 1 + UpSwaps(less, Swap(s, i, Parent(i)), Parent(i)) else 0
  }

  function DownSwaps<V>(less: (V, V) -> bool, s: seq<V>, i: nat): nat
    requires i < |s|
    decreases |s| - i
  {
    var h := Head(less, s, i);
    if h != i then 1 + DownSwaps(less, Swap(s, i, h), h) else 0
  }

  /** The integer part of the binary logarithm. */
  function Log2(n: nat): nat
    requires 0 < n
  {
    if n == 1 then 0 else 1 + Log2(n / 2)
  }

  function Pow2(n: nat): nat {
    if n == 0 then 1 else 2 * Pow2(n - 1)
  }

  lemma {:induction false} Log2Bounds(n: nat)
    requires 0 < n
    ensures Pow2(Log2(n)) <= n < 2 * Pow2(Log2(n))
  {
    if n > 1 { Log2Bounds(n / 2); }
  }

  /** The tree: the children of `i` are at `2i + 1` and `2i + 2`, and nowhere else. */
  lemma Children(i: nat, j: nat)
    requires 0 < j
    ensures Parent(j) == i <==> j == 2 * i + 1 || j == 2 * i + 2
  {
  }

  lemma {:induction false} Log2Monotone(m: nat, n: nat)
    requires 0 < m <= n
    ensures Log2(m) <= Log2(n)
  {
    if m > 1 { Log2Monotone(m / 2, n / 2); }
  }

  /** One round of sifting up. */
  lemma UpSteps<V>(less: (V, V) -> bool, s: seq<V>, i: nat)
    requires i < |s|
    ensures i == 0 ==> Up(less, s, i) == s && UpSwaps(less, s, i) == 0
    ensures 0 < i ==>
              var p := (i - 1) / 2;
              if less(s[i], s[p])
              then |Swap(s, i, p)| == |s| && Up(less, s, i) == Up(less, Swap(s, i, p), p)
                  && UpSwaps(less, s, i) == 1 + UpSwaps(less, Swap(s, i, p), p)
              else Up(less, s, i) == s && UpSwaps(less, s, i) == 0
  {
  }

  /** One round of sifting down. */
  lemma DownSteps<V>(less: (V, V) -> bool, s: seq<V>, i: nat)
    requires i < |s|
    ensures var h := Head(less, s, i);
            if h != i
            then i < h && |Swap(s, i, h)| == |s| && Down(less, s, i) == Down(less, Swap(s, i, h), h)
                 && DownSwaps(less, s, i) == 1 + DownSwaps(less, Swap(s, i, h), h)
            else Down(less, s, i) == s && DownSwaps(less, s, i) == 0
  {
  }

  lemma {:induction false} UpSwapsBound<V>(less: (V, V) -> bool, s: seq<V>, i: nat)
    requires i < |s|
    ensures UpSwaps(less, s, i) <= Log2(i + 1)
    decreases i
  {
    if 0 < i && less(s[i], s[Parent(i)]) {
      UpSwapsBound(less, Swap(s, i, Parent(i)), Parent(i));
      assert Parent(i) + 1 == (i + 1) / 2;
    }
  }

  lemma {:induction false} DownSwapsBound<V>(less: (V, V) -> bool, s: seq<V>, i: nat)
    requires i < |s|
    ensures DownSwaps(less, s, i) <= Log2(|s|) - Log2(i + 1)
    decreases |s| - i
  {
    Log2Monotone(i + 1, |s|);
    var h := Head(less, s, i);
    if h != i {
      DownSwapsBound(less, Swap(s, i, h), h);
      assert (h + 1) / 2 == i + 1;
    }
  }

  // ---------- where an element goes ----------

  /** `r` is `s` with the value at the start of a path moved to its end, each other one on the path moved one place
      towards the start, and nothing else moved. */
  ghost predicate Shifted<V>(s: seq<V>, r: seq<V>, path: seq<nat>) {
    && |r| == |s| && path != []
    && (forall j: nat | j < |path| :: path[j] < |s|)
    && r[path[|path| - 1]] == s[path[0]]
    && (forall j: nat | 0 < j < |path| :: r[path[j - 1]] == s[path[j]])
    && (forall q: nat | q < |s| && q !in path :: r[q] == s[q])
  }

  /** `v` passes the parent of `at`, because it is less. */
  predicate Passes<V>(less: (V, V) -> bool, s: seq<V>, v: V, at: nat, parent: nat) {
    0 < at && parent == (at - 1) / 2 && parent < |s| && less(v, s[parent])
  }

  /** `v` does not pass the parent of `at`, or there is none. */
  predicate RestsAbove<V>(less: (V, V) -> bool, s: seq<V>, v: V, at: nat) {
    0 < at < |s| ==> !less(v, s[(at - 1) / 2])
  }

  /** No child of `at` is less than `v`. */
  predicate RestsBelow<V>(less: (V, V) -> bool, s: seq<V>, v: V, at: nat) {
    && (2 * at + 1 < |s| ==> !less(s[2 * at + 1], v))
    && (2 * at + 2 < |s| ==> !less(s[2 * at + 2], v))
  }

  /** A path from an entry up to where `v` does not pass the parent. */
  ghost predicate Climbs<V>(less: (V, V) -> bool, s: seq<V>, v: V, path: seq<nat>) {
    && path != [] && (forall j: nat | j < |path| :: path[j] < |s|)
    && (forall j: nat | 0 < j < |path| :: Passes(less, s, v, path[j - 1], path[j]))
    && RestsAbove(less, s, v, path[|path| - 1])
  }

  /** The child that gives way to `v`: the left one if it is less than `v` and the right one is not less than it, and
      the right one if it is less than the left one, or than `v` if the left one is not. */
  predicate GivesWay<V>(less: (V, V) -> bool, s: seq<V>, v: V, at: nat, child: nat) {
    var left, right := 2 * at + 1, 2 * at + 2;
    && child < |s|
    && (child == left || child == right)
    && (child == left ==> less(s[left], v) && (right < |s| ==> !less(s[right], s[left])))
    && (child == right ==> less(s[right], if less(s[left], v) then s[left] else v))
  }

  /** A path from an entry down to where no child is less than `v`. */
  ghost predicate Sinks<V>(less: (V, V) -> bool, s: seq<V>, v: V, path: seq<nat>) {
    && path != [] && (forall j: nat | j < |path| :: path[j] < |s|)
    && (forall j: nat | 0 < j < |path| :: GivesWay(less, s, v, path[j - 1], path[j]))
    && RestsBelow(less, s, v, path[|path| - 1])
  }

  /** One exchange, and then a shift from the new place, is a shift from the old one. */
  lemma ShiftOneMore<V>(s: seq<V>, i: nat, h: nat, r: seq<V>, path: seq<nat>)
    requires i < |s| && h < |s| && i != h && i !in path
    requires Shifted(Swap(s, i, h), r, path) && path[0] == h
    requires forall j: nat | 0 < j < |path| :: path[j] != h
    ensures Shifted(s, r, [i] + path)
  {
    var t, longer := Swap(s, i, h), [i] + path;
    forall j: nat | 0 < j < |longer| ensures r[longer[j - 1]] == s[longer[j]] {
      if j == 1 {
        assert r[i] == t[i] == s[h];
      } else {
        assert r[path[j - 2]] == t[path[j - 1]];
        assert path[j - 1] != i;
      }
    }
    forall q: nat | q < |s| && q !in longer ensures r[q] == s[q] {
      assert q != i && q !in path && q != h;
    }
  }

  /** Sifting up shifts along such a path. */
  lemma {:induction false} UpIsShift<V>(less: (V, V) -> bool, s: seq<V>, i: nat) returns (path: seq<nat>)
    requires i < |s|
    ensures path != [] && path[0] == i && |path| == 1 + UpSwaps(less, s, i)
    ensures Climbs(less, s, s[i], path) && Shifted(s, Up(less, s, i), path)
    decreases i
  {
    UpSteps(less, s, i);
    path := [i];
    if 0 < i && less(s[i], s[Parent(i)]) {
      var p := Parent(i);
      var rest := UpIsShift(less, Swap(s, i, p), p);
      hide Up, UpSwaps, Shifted, Climbs;
      GoesUp(less, Swap(s, i, p), s[i], rest);
      path := [i] + rest;
      ClimbOneMore(less, s, i, p, rest);
      ShiftOneMore(s, i, p, Up(less, Swap(s, i, p), p), rest);
    } else {
      assert Climbs(less, s, s[i], path) && Shifted(s, s, path);
    }
  }

  /** Along such a path the places get smaller. */
  lemma GoesUp<V>(less: (V, V) -> bool, s: seq<V>, v: V, path: seq<nat>)
    requires Climbs(less, s, v, path)
    ensures forall j: nat | 0 < j < |path| :: path[j] < path[0]
  {
    var j := 1;
    while j < |path|
      invariant 1 <= j <= |path|
      invariant forall q: nat | 0 < q < j :: path[q] < path[0]
    {
      assert Passes(less, s, v, path[j - 1], path[j]);
      j := j + 1;
    }
  }

  lemma ClimbOneMore<V>(less: (V, V) -> bool, s: seq<V>, i: nat, p: nat, rest: seq<nat>)
    requires i < |s| && Passes(less, s, s[i], i, p)
    requires Climbs(less, Swap(s, i, p), s[i], rest) && rest[0] == p
    requires forall j: nat | 0 < j < |rest| :: rest[j] < p
    ensures Climbs(less, s, s[i], [i] + rest)
  {
    var path := [i] + rest;
    forall j: nat | 0 < j < |path| ensures Passes(less, s, s[i], path[j - 1], path[j]) {
      if j > 1 { assert Passes(less, Swap(s, i, p), s[i], rest[j - 2], rest[j - 1]); }
    }
    assert path[|path| - 1] == rest[|rest| - 1] <= p;
    assert RestsAbove(less, s, s[i], rest[|rest| - 1]);
  }

  /** Sifting down shifts along such a path. */
  lemma {:induction false} DownIsShift<V>(less: (V, V) -> bool, s: seq<V>, i: nat) returns (path: seq<nat>)
    requires i < |s|
    ensures path != [] && path[0] == i && |path| == 1 + DownSwaps(less, s, i)
    ensures Sinks(less, s, s[i], path) && Shifted(s, Down(less, s, i), path)
    decreases |s| - i
  {
    DownSteps(less, s, i);
    path := [i];
    var h := Head(less, s, i);
    if h != i {
      var rest := DownIsShift(less, Swap(s, i, h), h);
      hide Down, DownSwaps, Shifted, Sinks;
      GoesDown(less, Swap(s, i, h), s[i], rest);
      path := [i] + rest;
      SinkOneMore(less, s, i, h, rest);
      ShiftOneMore(s, i, h, Down(less, Swap(s, i, h), h), rest);
    } else {
      assert Sinks(less, s, s[i], path) && Shifted(s, s, path);
    }
  }

  lemma GoesDown<V>(less: (V, V) -> bool, s: seq<V>, v: V, path: seq<nat>)
    requires Sinks(less, s, v, path)
    ensures forall j: nat | 0 < j < |path| :: path[0] < path[j]
  {
    var j := 1;
    while j < |path|
      invariant 1 <= j <= |path|
      invariant forall q: nat | 0 < q < j :: path[0] < path[q]
    {
      assert GivesWay(less, s, v, path[j - 1], path[j]);
      j := j + 1;
    }
  }

  lemma SinkOneMore<V>(less: (V, V) -> bool, s: seq<V>, i: nat, h: nat, rest: seq<nat>)
    requires i < |s| && h == Head(less, s, i) != i
    requires Sinks(less, Swap(s, i, h), s[i], rest) && rest[0] == h
    requires forall j: nat | 0 < j < |rest| :: h < rest[j]
    ensures Sinks(less, s, s[i], [i] + rest)
  {
    var path := [i] + rest;
    assert GivesWay(less, s, s[i], i, h);
    hide Head;
    forall j: nat | 0 < j < |path| ensures GivesWay(less, s, s[i], path[j - 1], path[j]) {
      if j > 1 {
        assert rest[j - 2] >= h;
        GivesWayToo(less, s, i, h, rest[j - 2], rest[j - 1]);
      }
    }
    assert path[|path| - 1] == rest[|rest| - 1] >= h;
    assert RestsBelow(less, s, s[i], rest[|rest| - 1]);
  }

  lemma GivesWayToo<V>(less: (V, V) -> bool, s: seq<V>, i: nat, h: nat, at: nat, child: nat)
    requires i < h < |s| && h <= at && GivesWay(less, Swap(s, i, h), s[i], at, child)
    ensures GivesWay(less, s, s[i], at, child)
  {
  }

  // ---------- the root ----------

  lemma {:induction false} RootIsLeast<V(!new)>(less: (V, V) -> bool, s: seq<V>, i: nat)
    requires TotalPreorder(less) && IsHeap(less, s) && i < |s|
    ensures !less(s[i], s[0])
  {
    if 0 < i {
      RootIsLeast(less, s, Parent(i));
      assert InOrder(less, s, i);
    }
  }

  // ---------- the operations ----------

  function Inserted<V>(less: (V, V) -> bool, s: seq<V>, v: V): seq<V> {
    Up(less, s + [v], |s|)
  }

  /** What `extract` leaves once it has taken the root. */
  function Extracted<V>(less: (V, V) -> bool, s: seq<V>): seq<V>
    requires s != []
  {
    var last := |s| - 1;
    if last == 0 then [] else Down(less, s[0 := s[last]][..last], 0)
  }

  /** What `change_key` leaves when the entry at `i` gets the value `v`. */
  function Changed<V>(less: (V, V) -> bool, s: seq<V>, i: nat, v: V): seq<V>
    requires i < |s|
  {
    if less(s[i], v) then Down(less, s[i := v], i)
    else if less(v, s[i]) then Up(less, s[i := v], i)
    else s
  }

  /** What `remove_item` leaves when the entry at `i` goes. */
  function Removed<V>(less: (V, V) -> bool, s: seq<V>, i: nat): seq<V>
    requires i < |s|
  {
    var last := |s| - 1;
    if i == 0 then Extracted(less, s)
    else if i == last then s[..last]
    else
      var t := s[i := s[last]][..last];
      if less(s[i], s[last]) then Down(less, t, i)
      else if less(s[last], s[i]) then Up(less, t, i)
      else t
  }

  /** What each operation does to the sequence before it sifts, and which way it sifts. */
  lemma Sifts<V>(less: (V, V) -> bool, s: seq<V>, i: nat, v: V)
    requires i < |s|
    ensures var last := |s| - 1;
            && Inserted(less, s, v) == Up(less, s + [v], |s|)
            && (|s| == 1 ==> Extracted(less, s) == [])
            && (|s| > 1 ==> Extracted(less, s) == Down(less, s[0 := s[last]][..last], 0))
            && (less(s[i], v) ==> Changed(less, s, i, v) == Down(less, s[i := v], i))
            && (!less(s[i], v) && less(v, s[i]) ==> Changed(less, s, i, v) == Up(less, s[i := v], i))
            && (!less(s[i], v) && !less(v, s[i]) ==> Changed(less, s, i, v) == s)
            && (i == 0 ==> Removed(less, s, i) == Extracted(less, s))
            && (0 < i == last ==> Removed(less, s, i) == s[..last])
            && (0 < i < last && less(s[i], s[last]) ==> Removed(less, s, i) == Down(less, s[i := s[last]][..last], i))
            && (0 < i < last && !less(s[i], s[last]) && less(s[last], s[i]) ==>
                  Removed(less, s, i) == Up(less, s[i := s[last]][..last], i))
            && (0 < i < last && !less(s[i], s[last]) && !less(s[last], s[i]) ==>
                  Removed(less, s, i) == s[i := s[last]][..last])
  {
    hide Up, Down;
  }

  lemma InsertedIsHeap<V(!new)>(less: (V, V) -> bool, s: seq<V>, v: V)
    requires TotalPreorder(less) && IsHeap(less, s)
    ensures IsHeap(less, Inserted(less, s, v))
    ensures multiset(Inserted(less, s, v)) == multiset(s) + multiset{v}
  {
    forall j: nat | j < |s| ensures InOrder(less, s + [v], j) {
      assert InOrder(less, s, j);
    }
    UpMakesHeap(less, s + [v], |s|);
    UpKeepsAll(less, s + [v], |s|);
  }

  /** The last entry moved over entry `i`: exactly entry `i` is gone. */
  lemma LastOverAll<V>(s: seq<V>, i: nat)
    requires i < |s| - 1
    ensures multiset(s[i := s[|s| - 1]][..|s| - 1]) == multiset(s) - multiset{s[i]}
  {
    var t := s[i := s[|s| - 1]];
    ReplacedOne(s, i, s[|s| - 1]);
    assert |t| == |s| && t[|t| - 1] == s[|s| - 1];
    DropLastAll(t);
    Cancel(multiset(s), multiset(t), multiset(t[..|t| - 1]), s[i], s[|s| - 1]);
  }

  lemma ReplacedOne<V>(s: seq<V>, i: nat, v: V)
    requires i < |s|
    ensures multiset(s[i := v]) == multiset(s) - multiset{s[i]} + multiset{v}
  {
  }

  lemma Cancel<V>(all: multiset<V>, replaced: multiset<V>, rest: multiset<V>, u: V, v: V)
    requires replaced == all - multiset{u} + multiset{v} && rest == replaced - multiset{v}
    ensures rest == all - multiset{u}
  {
  }

  lemma DropLastAll<V>(s: seq<V>)
    requires s != []
    ensures multiset(s[..|s| - 1]) == multiset(s) - multiset{s[|s| - 1]}
  {
    assert s == s[..|s| - 1] + [s[|s| - 1]];
  }

  /** `extract` takes a least element and removes exactly it. */
  lemma ExtractTakesLeast<V(!new)>(less: (V, V) -> bool, s: seq<V>)
    requires TotalPreorder(less) && IsHeap(less, s) && s != []
    ensures IsHeap(less, Extracted(less, s))
    ensures multiset(Extracted(less, s)) == multiset(s) - multiset{s[0]}
    ensures forall v | v in s :: !less(v, s[0])
  {
    var last := |s| - 1;
    if last == 0 {
      assert s == [s[0]];
    } else {
      var t := s[0 := s[last]][..last];
      forall j: nat | j < |t| && !(0 < j && Parent(j) == 0) ensures InOrder(less, t, j) {
        assert InOrder(less, s, j);
      }
      DownMakesHeap(less, t, 0);
      DownKeepsAll(less, t, 0);
      LastOverAll(s, 0);
    }
    forall v | v in s ensures !less(v, s[0]) {
      var i: nat :| i < |s| && s[i] == v;
      RootIsLeast(less, s, i);
    }
  }

  /** `change_key` restores order in both directions and replaces exactly the one entry. Where old and new value
      tie it keeps the old one, so there they have to be the same value. */
  lemma ChangedIsHeap<V(!new)>(less: (V, V) -> bool, s: seq<V>, i: nat, v: V)
    requires TotalPreorder(less) && IsHeap(less, s) && i < |s|
    requires !less(s[i], v) && !less(v, s[i]) ==> v == s[i]
    ensures IsHeap(less, Changed(less, s, i, v))
    ensures multiset(Changed(less, s, i, v)) == multiset(s) - multiset{s[i]} + multiset{v}
  {
    var t := s[i := v];
    forall j: nat | j < |s| ensures InOrder(less, s, j) {}
    forall j: nat | 0 < j < |s| && Parent(j) == i && 0 < i ensures !less(s[j], s[Parent(i)]) {
      assert InOrder(less, s, j) && InOrder(less, s, i);
    }
    if less(s[i], v) {
      forall j: nat | j < |t| && !(0 < j && Parent(j) == i) ensures InOrder(less, t, j) {
        assert InOrder(less, s, j) && !less(v, s[i]);
      }
      DownMakesHeap(less, t, i);
      DownKeepsAll(less, t, i);
    } else if less(v, s[i]) {
      forall j: nat | j < |t| && j != i ensures InOrder(less, t, j) {
        assert InOrder(less, s, j);
      }
      UpMakesHeap(less, t, i);
      UpKeepsAll(less, t, i);
    }
  }

  /** Replacing an entry by one that ties with it keeps the order. */
  lemma TieKeepsHeap<V(!new)>(less: (V, V) -> bool, s: seq<V>, i: nat, v: V)
    requires TotalPreorder(less) && IsHeap(less, s) && i < |s|
    requires !less(s[i], v) && !less(v, s[i])
    ensures IsHeap(less, s[i := v])
  {
    var t := s[i := v];
    forall j: nat | j < |t| ensures InOrder(less, t, j) {
      assert InOrder(less, s, j);
    }
  }

  /** `remove_item` removes exactly entry `i` and keeps the order, whether the last entry that takes its place has
      to sink, has to rise past the parent of `i`, or ties with what it replaces. */
  lemma RemovedIsHeap<V(!new)>(less: (V, V) -> bool, s: seq<V>, i: nat)
    requires TotalPreorder(less) && IsHeap(less, s) && i < |s|
    ensures IsHeap(less, Removed(less, s, i))
    ensures multiset(Removed(less, s, i)) == multiset(s) - multiset{s[i]}
  {
    if i == 0 {
      ExtractTakesLeast(less, s);
    } else {
      PrefixIsHeap(less, s);
      DropLastAll(s);
      if 0 < i < |s| - 1 { RemovedInside(less, s, i); }
    }
  }

  lemma PrefixIsHeap<V>(less: (V, V) -> bool, s: seq<V>)
    requires IsHeap(less, s) && s != []
    ensures IsHeap(less, s[..|s| - 1])
  {
    var u := s[..|s| - 1];
    forall j: nat | j < |u| ensures InOrder(less, u, j) { assert InOrder(less, s, j); }
  }

  /** The ways in which the last value that takes the place of an entry goes. */
  lemma RemovedSteps<V>(less: (V, V) -> bool, s: seq<V>, i: nat)
    requires 0 < i < |s| - 1
    ensures var t := s[i := s[|s| - 1]][..|s| - 1];
            Removed(less, s, i)
            == if less(s[i], s[|s| - 1]) then Down(less, t, i) else if less(s[|s| - 1], s[i]) then Up(less, t, i) else t
  {
    hide Up, Down;
  }

  /** An entry that is neither the root nor the last is changed to the last value, which is dropped from the end. */
  lemma RemovedInside<V(!new)>(less: (V, V) -> bool, s: seq<V>, i: nat)
    requires TotalPreorder(less) && 0 < i < |s| - 1 && IsHeap(less, s[..|s| - 1])
    ensures IsHeap(less, Removed(less, s, i))
    ensures multiset(Removed(less, s, i)) == multiset(s) - multiset{s[i]}
  {
    var last := |s| - 1;
    var u, v := s[..last], s[last];
    RemovedIsChanged(less, s, i);
    LastOverAll(s, i);
    hide TotalPreorder, IsHeap, Removed, Changed;
    if less(s[i], v) || less(v, s[i]) {
      ChangedIsHeap(less, u, i, v);
      DropLastAll(s);
      hide *;
      BackIn(multiset(s), s[i], v, multiset(u));
    } else {
      TieKeepsHeap(less, u, i, v);
    }
  }

  lemma RemovedIsChanged<V>(less: (V, V) -> bool, s: seq<V>, i: nat)
    requires 0 < i < |s| - 1
    ensures var u, v := s[..|s| - 1], s[|s| - 1];
            && s[i := v][..|s| - 1] == u[i := v] && u[i] == s[i] && s[i] in multiset(u)
            && Removed(less, s, i) == if less(s[i], v) || less(v, s[i]) then Changed(less, u, i, v) else u[i := v]
  {
    var u, v := s[..|s| - 1], s[|s| - 1];
    assert s[i := v][..|s| - 1] == u[i := v];
    assert u[i] in multiset(u);
    hide Up, Down;
  }

  lemma BackIn<V>(s: multiset<V>, a: V, b: V, u: multiset<V>)
    requires u == s - multiset{b} && a in u && b in s
    ensures u - multiset{a} + multiset{b} == s - multiset{a}
  {
  }

  // ---------- repeated extraction ----------

  /** The values that repeated `extract` returns until the heap is empty. */
  function Drained<V>(less: (V, V) -> bool, s: seq<V>): (r: seq<V>)
    decreases |s|
  {
    if s == [] then [] else [s[0]] + Drained(less, Extracted(less, s))
  }

  ghost predicate Sorted<V>(less: (V, V) -> bool, s: seq<V>) {
    forall i: nat, j: nat | i < j < |s| :: !less(s[j], s[i])
  }

  /** Repeated `extract` returns a sorted permutation of the heap. */
  lemma {:induction false} DrainSorts<V(!new)>(less: (V, V) -> bool, s: seq<V>)
    requires TotalPreorder(less) && IsHeap(less, s)
    ensures multiset(Drained(less, s)) == multiset(s)
    ensures Sorted(less, Drained(less, s))
    decreases |s|
  {
    if s == [] {
      assert Drained(less, s) == [] && Sorted(less, []);
    } else {
      var rest := Extracted(less, s);
      assert Drained(less, s) == [s[0]] + Drained(less, rest);
      hide *;
      ExtractTakesLeast(less, s);
      DrainSorts(less, rest);
      LeastFirst(less, s, rest, Drained(less, rest));
    }
  }

  lemma LeastFirst<V>(less: (V, V) -> bool, s: seq<V>, rest: seq<V>, sorted: seq<V>)
    requires s != [] && multiset(rest) == multiset(s) - multiset{s[0]} && multiset(sorted) == multiset(rest)
    requires Sorted(less, sorted) && forall v | v in s :: !less(v, s[0])
    ensures multiset([s[0]] + sorted) == multiset(s) && Sorted(less, [s[0]] + sorted)
  {
    forall i: nat | i < |sorted| ensures !less(sorted[i], s[0]) {
      assert sorted[i] in multiset(sorted);
      assert sorted[i] in multiset(s);
    }
  }
}
