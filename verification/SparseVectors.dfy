/** Sparse feature vectors, sorted by feature (jubatus/core/clustering/util.cpp). Feature names are
    represented by their rank in the string order, doubles by reals. */
module SparseVectors {

  datatype Entry = Entry(key: nat, value: real)

  type Sfv = seq<Entry>

  predicate Sorted(v: Sfv) {
    forall i, j :: 0 <= i < j < |v| ==> v[i].key < v[j].key
  }

  /** The value at a key, zero when it is absent. */
  function At(v: Sfv, key: nat): real {
    if v == [] then 0.0 else if v[0].key == key then v[0].value else At(v[1..], key)
  }

  /** The inner product. */
  function Dot(u: Sfv, v: Sfv): real {
    if u == [] then 0.0 else u[0].value * At(v, u[0].key) + Dot(u[1..], v)
  }

  function Times(e: Entry, s: real): Entry {
    Entry(e.key, e.value * s)
  }

  function Scale(v: Sfv, s: real): Sfv {
    if v == [] then [] else [Times(v[0], s)] + Scale(v[1..], s)
  }

  /** The sum of two vectors, as one merge. */
  function Merge(left: Sfv, right: Sfv): Sfv {
    if left == [] then right
    else if right == [] then left
    else if left[0].key < right[0].key then [left[0]] + Merge(left[1..], right)
    else if left[0].key > right[0].key then [right[0]] + Merge(left, right[1..])
    else [Entry(right[0].key, right[0].value + left[0].value)] + Merge(left[1..], right[1..])
  }

  /** right + s * left. */
  function MulAdd(left: Sfv, s: real, right: Sfv): Sfv {
    Merge(Scale(left, s), right)
  }

  /** The squared Euclidean distance, as one merge. */
  function SqDist(p: Sfv, q: Sfv): (d: real)
    ensures d >= 0.0
  {
    if p == [] && q == [] then 0.0
    else if q == [] || (p != [] && p[0].key < q[0].key) then p[0].value * p[0].value + SqDist(p[1..], q)
    else if p == [] || p[0].key > q[0].key then q[0].value * q[0].value + SqDist(p, q[1..])
    else (p[0].value - q[0].value) * (p[0].value - q[0].value) + SqDist(p[1..], q[1..])
  }

  // ----- vector algebra

  lemma {:induction false} Absent(v: Sfv, key: nat)
    requires forall i :: 0 <= i < |v| ==> v[i].key != key
    ensures At(v, key) == 0.0
  {
    if v != [] {
      Absent(v[1..], key);
    }
  }

  lemma {:induction false} AtScale(v: Sfv, s: real, key: nat)
    ensures At(Scale(v, s), key) == s * At(v, key)
  {
    if v != [] {
      AtScale(v[1..], s, key);
    }
  }

  lemma {:induction false} ScaleAt(v: Sfv, s: real)
    ensures |Scale(v, s)| == |v|
    ensures forall i :: 0 <= i < |v| ==> Scale(v, s)[i] == Times(v[i], s)
  {
    if v != [] {
      ScaleAt(v[1..], s);
    }
  }

  lemma ScaleSorted(v: Sfv, s: real)
    requires Sorted(v)
    ensures Sorted(Scale(v, s)) && |Scale(v, s)| == |v|
    ensures forall i :: 0 <= i < |v| ==> Scale(v, s)[i].key == v[i].key
  {
    ScaleAt(v, s);
    forall i, j | 0 <= i < j < |v| ensures Scale(v, s)[i].key < Scale(v, s)[j].key {
      assert Times(v[i], s).key < Times(v[j], s).key;
    }
  }

  lemma {:induction false} MergeKeys(left: Sfv, right: Sfv, low: nat)
    requires forall i :: 0 <= i < |left| ==> low < left[i].key
    requires forall i :: 0 <= i < |right| ==> low < right[i].key
    ensures forall i :: 0 <= i < |Merge(left, right)| ==> low < Merge(left, right)[i].key
  {
    if left == [] || right == [] {
    } else if left[0].key < right[0].key {
      MergeKeys(left[1..], right, low);
    } else if left[0].key > right[0].key {
      MergeKeys(left, right[1..], low);
    } else {
      MergeKeys(left[1..], right[1..], low);
    }
  }

  lemma {:induction false} MergeSorted(left: Sfv, right: Sfv)
    requires Sorted(left) && Sorted(right)
    ensures Sorted(Merge(left, right))
  {
    if left == [] || right == [] {
    } else if left[0].key < right[0].key {
      MergeSorted(left[1..], right);
      MergeKeys(left[1..], right, left[0].key);
    } else if left[0].key > right[0].key {
      MergeSorted(left, right[1..]);
      MergeKeys(left, right[1..], right[0].key);
    } else {
      MergeSorted(left[1..], right[1..]);
      MergeKeys(left[1..], right[1..], left[0].key);
    }
  }

  /** The merge adds at every key. */
  lemma {:induction false} AtMerge(left: Sfv, right: Sfv, key: nat)
    requires Sorted(left) && Sorted(right)
    ensures At(Merge(left, right), key) == At(right, key) + At(left, key)
  {
    if left == [] || right == [] {
    } else if left[0].key < right[0].key {
      AtMerge(left[1..], right, key);
      if key == left[0].key {
        Absent(right, key);
      }
    } else if left[0].key > right[0].key {
      AtMerge(left, right[1..], key);
      if key == right[0].key {
        Absent(left, key);
      }
    } else {
      AtMerge(left[1..], right[1..], key);
    }
  }

  lemma MulAddSorted(left: Sfv, s: real, right: Sfv)
    requires Sorted(left) && Sorted(right)
    ensures Sorted(MulAdd(left, s, right))
  {
    ScaleSorted(left, s);
    MergeSorted(Scale(left, s), right);
  }

  lemma AtMulAdd(left: Sfv, s: real, right: Sfv, key: nat)
    requires Sorted(left) && Sorted(right)
    ensures At(MulAdd(left, s, right), key) == At(right, key) + s * At(left, key)
  {
    ScaleSorted(left, s);
    AtMerge(Scale(left, s), right, key);
    AtScale(left, s, key);
  }

  /** v is w + s * r, key by key. */
  ghost predicate Combined(v: Sfv, w: Sfv, s: real, r: Sfv) {
    forall key :: At(v, key) == At(w, key) + s * At(r, key)
  }

  /** The inner product is linear in its second argument; the out-parameters name the three products. */
  lemma {:induction false} DotLinear(u: Sfv, v: Sfv, w: Sfv, s: real, r: Sfv) returns (uv: real, uw: real, ur: real)
    requires forall key :: At(v, key) == At(w, key) + s * At(r, key)
    ensures uv == Dot(u, v) && uw == Dot(u, w) && ur == Dot(u, r) && uv == uw + s * ur
  {
    if u == [] {
      return 0.0, 0.0, 0.0;
    }
    var x, key := u[0].value, u[0].key;
    uv, uw, ur := DotLinear(u[1..], v, w, s, r);
    LinearStep(x, At(v, key), At(w, key), s, At(r, key), uv, uw, ur);
    uv, uw, ur := x * At(v, key) + uv, x * At(w, key) + uw, x * At(r, key) + ur;
  }

  lemma LinearStep(x: real, v: real, w: real, s: real, r: real, uv: real, uw: real, ur: real)
    requires v == w + s * r && uv == uw + s * ur
    ensures x * v + uv == (x * w + uw) + s * (x * r + ur)
  {
    assert x * v == x * w + s * (x * r);
  }

  lemma MulAddCombines(left: Sfv, s: real, right: Sfv)
    requires Sorted(left) && Sorted(right)
    ensures Combined(MulAdd(left, s, right), right, s, left)
  {
    forall key { AtMulAdd(left, s, right, key); }
  }

  lemma DotMulAdd(u: Sfv, left: Sfv, s: real, right: Sfv) returns (sum: real, ur: real, ul: real)
    requires Sorted(left) && Sorted(right)
    ensures sum == Dot(u, MulAdd(left, s, right)) && ur == Dot(u, right) && ul == Dot(u, left)
    ensures sum == ur + s * ul
  {
    MulAddCombines(left, s, right);
    sum, ur, ul := DotLinear(u, MulAdd(left, s, right), right, s, left);
  }

  lemma {:induction false} DotZero(u: Sfv)
    ensures Dot(u, []) == 0.0
  {
    if u != [] {
      DotZero(u[1..]);
    }
  }

  lemma ScaleCombines(v: Sfv, s: real)
    ensures Combined(Scale(v, s), [], s, v)
  {
    forall key { AtScale(v, s, key); }
  }

  lemma DotScale(u: Sfv, v: Sfv, s: real) returns (multiple: real, uv: real)
    ensures multiple == Dot(u, Scale(v, s)) && uv == Dot(u, v) && multiple == s * uv
  {
    ScaleCombines(v, s);
    var zero;
    multiple, zero, uv := DotLinear(u, Scale(v, s), [], s, v);
    DotZero(u);
  }

  lemma {:induction false} DotSkip(u: Sfv, v: Sfv)
    requires v != [] && forall i :: 0 <= i < |u| ==> u[i].key != v[0].key
    ensures Dot(u, v) == Dot(u, v[1..])
  {
    if u != [] {
      DotSkip(u[1..], v);
    }
  }

  lemma DotSelf(p: Sfv)
    requires p != [] && Sorted(p)
    ensures Dot(p, p) == p[0].value * p[0].value + Dot(p[1..], p[1..])
  {
    DotSkip(p[1..], p);
  }

  /** The squared distance by the inner product. */
  function DotDistance(p: Sfv, q: Sfv): real {
    Dot(p, p) - 2.0 * Dot(q, p) + Dot(q, q)
  }

  lemma DistanceLeft(p: Sfv, q: Sfv)
    requires p != [] && Sorted(p) && Sorted(q) && (q == [] || p[0].key < q[0].key)
    ensures DotDistance(p, q) == p[0].value * p[0].value + DotDistance(p[1..], q)
  {
    DotSelf(p);
    DotSkip(q, p);
  }

  lemma DistanceRight(p: Sfv, q: Sfv)
    requires q != [] && Sorted(p) && Sorted(q) && (p == [] || p[0].key > q[0].key)
    ensures DotDistance(p, q) == q[0].value * q[0].value + DotDistance(p, q[1..])
  {
    DotSelf(q);
    Absent(p, q[0].key);
  }

  lemma DistanceBoth(p: Sfv, q: Sfv)
    requires p != [] && q != [] && Sorted(p) && Sorted(q) && p[0].key == q[0].key
    ensures DotDistance(p, q) == (p[0].value - q[0].value) * (p[0].value - q[0].value) + DotDistance(p[1..], q[1..])
  {
    DotSelf(p);
    DotSelf(q);
    DotSkip(q[1..], p);
    SquareOfDifference(p[0].value, q[0].value);
  }

  /** The merged squared distance is the distance of the inner product. */
  lemma {:induction false} SqDistIsDot(p: Sfv, q: Sfv)
    requires Sorted(p) && Sorted(q)
    ensures SqDist(p, q) == DotDistance(p, q)
    decreases |p| + |q|
  {
    if p == [] && q == [] {
    } else if q == [] || (p != [] && p[0].key < q[0].key) {
      SqDistIsDot(p[1..], q);
      DistanceLeft(p, q);
    } else if p == [] || p[0].key > q[0].key {
      SqDistIsDot(p, q[1..]);
      DistanceRight(p, q);
    } else {
      SqDistIsDot(p[1..], q[1..]);
      DistanceBoth(p, q);
    }
  }

  lemma SquareOfDifference(a: real, b: real)
    ensures (a - b) * (a - b) == a * a - 2.0 * (b * a) + b * b
  {
  }

  function SquaredGap(x: real, y: real): real {
    (x - y) * (x - y)
  }

  /** Feature by feature below n, the squared differences, added up. */
  ghost function SumOfSquares(p: Sfv, q: Sfv, n: nat): real {
    if n == 0 then 0.0 else SumOfSquares(p, q, n - 1) + SquaredGap(At(p, n - 1), At(q, n - 1))
  }

  /** Vectors that are zero in one feature and agree with p and q in all others. */
  ghost predicate Without(p: Sfv, q: Sfv, key: nat, p': Sfv, q': Sfv) {
    && At(p', key) == 0.0 == At(q', key)
    && forall k :: k != key ==> At(p', k) == At(p, k) && At(q', k) == At(q, k)
  }

  lemma {:induction false} SumWithout(p: Sfv, q: Sfv, key: nat, p': Sfv, q': Sfv, n: nat)
    requires Without(p, q, key, p', q')
    ensures SumOfSquares(p, q, n)
         == SumOfSquares(p', q', n) + if key < n then SquaredGap(At(p, key), At(q, key)) else 0.0
  {
    if n > 0 {
      SumWithout(p, q, key, p', q', n - 1);
    }
  }

  lemma TailAt(v: Sfv, key: nat)
    requires v != [] && Sorted(v)
    ensures At(v[1..], key) == if key == v[0].key then 0.0 else At(v, key)
    ensures At(v, v[0].key) == v[0].value
  {
    Absent(v[1..], v[0].key);
  }

  lemma WithoutFirst(v: Sfv)
    requires v != [] && Sorted(v)
    ensures At(v, v[0].key) == v[0].value && Without(v, v, v[0].key, v[1..], v[1..])
  {
    forall k ensures At(v[1..], k) == if k == v[0].key then 0.0 else At(v, k) { TailAt(v, k); }
  }

  lemma {:induction false} NothingBelow(n: nat)
    ensures SumOfSquares([], [], n) == 0.0
  {
    if n > 0 {
      NothingBelow(n - 1);
    }
  }

  lemma DropLeft(p: Sfv, q: Sfv, n: nat)
    requires p != [] && Sorted(p) && Sorted(q) && p[0].key < n && (q == [] || p[0].key < q[0].key)
    ensures SumOfSquares(p, q, n) == p[0].value * p[0].value + SumOfSquares(p[1..], q, n)
  {
    Absent(q, p[0].key);
    WithoutFirst(p);
    SumWithout(p, q, p[0].key, p[1..], q, n);
  }

  lemma DropRight(p: Sfv, q: Sfv, n: nat)
    requires q != [] && Sorted(p) && Sorted(q) && q[0].key < n && (p == [] || q[0].key < p[0].key)
    ensures SumOfSquares(p, q, n) == q[0].value * q[0].value + SumOfSquares(p, q[1..], n)
  {
    Absent(p, q[0].key);
    WithoutFirst(q);
    SumWithout(p, q, q[0].key, p, q[1..], n);
  }

  lemma DropBoth(p: Sfv, q: Sfv, n: nat)
    requires p != [] && q != [] && Sorted(p) && Sorted(q) && p[0].key == q[0].key < n
    ensures SumOfSquares(p, q, n) == SquaredGap(p[0].value, q[0].value) + SumOfSquares(p[1..], q[1..], n)
  {
    WithoutFirst(p);
    WithoutFirst(q);
    SumWithout(p, q, p[0].key, p[1..], q[1..], n);
  }

  /** The squared distance is the sum over all features of the squared differences of the values. */
  lemma {:induction false} SqDistIsSum(p: Sfv, q: Sfv, n: nat)
    requires Sorted(p) && Sorted(q)
    requires (forall i :: 0 <= i < |p| ==> p[i].key < n) && forall i :: 0 <= i < |q| ==> q[i].key < n
    ensures SqDist(p, q) == SumOfSquares(p, q, n)
    decreases |p| + |q|
  {
    if p == [] && q == [] {
      NothingBelow(n);
    } else if q == [] || (p != [] && p[0].key < q[0].key) {
      DropLeft(p, q, n);
      SqDistIsSum(p[1..], q, n);
    } else if p == [] || p[0].key > q[0].key {
      DropRight(p, q, n);
      SqDistIsSum(p, q[1..], n);
    } else {
      DropBoth(p, q, n);
      SqDistIsSum(p[1..], q[1..], n);
    }
  }

  lemma {:induction false} SelfDistance(c: Sfv)
    ensures SqDist(c, c) == 0.0
  {
    if c != [] {
      SelfDistance(c[1..]);
    }
  }

  // ----- the loops

  /** An entry inserted before the cursor's entry is passed over by the next comparison. */
  lemma MergeInserted(e: Entry, todo: Sfv, rest: Sfv)
    requires todo != [] ==> e.key < todo[0].key
    ensures Merge(todo, [e] + rest) == [e] + Merge(todo, rest)
  {
    assert ([e] + rest)[1..] == rest;
  }

  /** What lies before the cursors, and what is still to be merged. */
  function Merged(done: Sfv, todo: Sfv, rest: Sfv): Sfv {
    done + Merge(todo, rest)
  }

  lemma MergedLess(done: Sfv, todo: Sfv, rest: Sfv)
    requires todo != [] && rest != [] && Sorted(todo) && todo[0].key < rest[0].key
    ensures Merged(done, todo[1..], [todo[0]] + rest) == Merged(done, todo, rest)
  {
    MergeInserted(todo[0], todo[1..], rest);
  }

  lemma MergedGreater(done: Sfv, todo: Sfv, rest: Sfv)
    requires todo != [] && rest != [] && todo[0].key > rest[0].key
    ensures Merged(done + [rest[0]], todo, rest[1..]) == Merged(done, todo, rest)
  {
    var tail := Merge(todo, rest[1..]);
    assert (done + [rest[0]]) + tail == done + ([rest[0]] + tail);
  }

  lemma MergedEqual(done: Sfv, todo: Sfv, rest: Sfv, e: Entry)
    requires todo != [] && rest != [] && todo[0].key == rest[0].key
    requires e == Entry(rest[0].key, rest[0].value + todo[0].value)
    ensures Merged(done + [e], todo[1..], rest[1..]) == Merged(done, todo, rest)
  {
    var tail := Merge(todo[1..], rest[1..]);
    assert (done + [e]) + tail == done + ([e] + tail);
  }

  /** The scaled entries from l on. */
  lemma ScaledTodo(left: Sfv, s: real, l: nat)
    requires Sorted(left) && l < |left|
    ensures |Scale(left, s)| == |left|
    ensures var todo := Scale(left, s)[l..];
            Sorted(todo) && todo[0] == Times(left[l], s) && todo[1..] == Scale(left, s)[l + 1..]
  {
    ScaleSorted(left, s);
    ScaleAt(left, s);
  }

  /** The cursors l and r split left into what is merged and todo, and out into done and rest. */
  ghost predicate Cursors(scaled: Sfv, l: nat, out: Sfv, r: nat, done: Sfv, rest: Sfv) {
    l <= |scaled| && r == |done| && out == done + rest
  }

  lemma InsertAtCursor(out: Sfv, done: Sfv, rest: Sfv, e: Entry)
    requires out == done + rest
    ensures out[..|done|] + [e] + out[|done|..] == done + ([e] + rest)
  {
    assert out[..|done|] == done && out[|done|..] == rest;
  }

  lemma PassCursor(out: Sfv, done: Sfv, rest: Sfv)
    requires out == done + rest && rest != []
    ensures out == (done + [rest[0]]) + rest[1..] && out[|done|] == rest[0]
  {
  }

  lemma UpdateAtCursor(out: Sfv, done: Sfv, rest: Sfv, e: Entry)
    requires out == done + rest && rest != []
    ensures out[|done| := e] == (done + [e]) + rest[1..]
  {
  }

  /** One pass of the merging loop. */
  method MergeOnce(left: Sfv, s: real, l: nat, out: Sfv, r: nat, ghost done: Sfv, ghost rest: Sfv)
      returns (l': nat, out': Sfv, r': nat, ghost done': Sfv, ghost rest': Sfv)
    requires Sorted(left) && l < |left| && r < |out|
    requires Cursors(Scale(left, s), l, out, r, done, rest)
    ensures Cursors(Scale(left, s), l', out', r', done', rest')
    ensures l <= l' && (l' == l ==> |rest'| < |rest|) && |rest'| <= |rest| + l' - l
    ensures Merged(done', Scale(left, s)[l'..], rest') == Merged(done, Scale(left, s)[l..], rest)
  {
    ghost var todo := Scale(left, s)[l..];
    ScaledTodo(left, s, l);
    PassCursor(out, done, rest);
    var e := Times(left[l], s);
    if left[l].key < out[r].key {
      MergedLess(done, todo, rest);
      InsertAtCursor(out, done, rest, e);
      out', done', rest' := out[..r] + [e] + out[r..], done, [e] + rest;
      l', r' := l + 1, r;
    } else if left[l].key > out[r].key {
      MergedGreater(done, todo, rest);
      out', done', rest' := out, done + [rest[0]], rest[1..];
      l', r' := l, r + 1;
    } else {
      var sum := Entry(out[r].key, out[r].value + e.value);
      MergedEqual(done, todo, rest, sum);
      UpdateAtCursor(out, done, rest, sum);
      out', done', rest' := out[r := sum], done + [sum], rest[1..];
      l', r' := l + 1, r + 1;
    }
  }

  /** scalar_mul_and_add: merges left into right in place, inserting at the cursor. */
  method ScalarMulAndAdd(left: Sfv, s: real, right: Sfv) returns (out: Sfv)
    requires Sorted(left)
    ensures out == MulAdd(left, s, right)
  {
    out := right;
    var l: nat, r: nat := 0, 0;
    ghost var done, rest: Sfv := [], right;
    assert |Scale(left, s)| == |left| by { ScaleAt(left, s); }
    while l < |left| && r < |out|
      invariant Cursors(Scale(left, s), l, out, r, done, rest)
      invariant Merged(done, Scale(left, s)[l..], rest) == Merge(Scale(left, s), right)
      decreases 2 * (|left| - l) + |rest|
    {
      l, out, r, done, rest := MergeOnce(left, s, l, out, r, done, rest);
    }
    var tail := ScalarDot(left[l..], s);
    ScaleDrop(left, s, l);
    out := out + tail;
  }

  lemma {:induction false} ScaleDrop(v: Sfv, s: real, l: nat)
    requires l <= |v|
    ensures l <= |Scale(v, s)| && Scale(v[l..], s) == Scale(v, s)[l..]
  {
    if l > 0 {
      ScaleDrop(v[1..], s, l - 1);
      assert v[1..][l - 1..] == v[l..];
    }
  }

  lemma {:induction false} ScaleAppend(v: Sfv, s: real, e: Entry)
    ensures Scale(v + [e], s) == Scale(v, s) + [Times(e, s)]
  {
    if v != [] {
      ScaleAppend(v[1..], s, e);
      assert (v + [e])[1..] == v[1..] + [e];
    }
  }

  /** scalar_dot, also the loop that appends what is left of a merge. */
  method ScalarDot(v: Sfv, s: real) returns (out: Sfv)
    ensures out == Scale(v, s)
  {
    out := [];
    for i := 0 to |v|
      invariant out == Scale(v[..i], s)
    {
      ScaleAppend(v[..i], s, v[i]);
      assert v[..i + 1] == v[..i] + [v[i]];
      out := out + [Times(v[i], s)];
    }
    assert v[..|v|] == v;
  }

  /** One comparison of the distance merge at cursors i and j. */
  lemma SqDistStep(p: Sfv, i: nat, q: Sfv, j: nat)
    requires i <= |p| && j <= |q| && (i < |p| || j < |q|)
    ensures SqDist(p[i..], q[j..])
         == if j == |q| || (i < |p| && p[i].key < q[j].key) then p[i].value * p[i].value + SqDist(p[i + 1..], q[j..])
            else if i == |p| || p[i].key > q[j].key then q[j].value * q[j].value + SqDist(p[i..], q[j + 1..])
            else (p[i].value - q[j].value) * (p[i].value - q[j].value) + SqDist(p[i + 1..], q[j + 1..])
  {
    assert i < |p| ==> p[i..][1..] == p[i + 1..];
    assert j < |q| ==> q[j..][1..] == q[j + 1..];
  }

  /** sfv_euclid_dist before the final square root. */
  method EuclidDistSquared(p: Sfv, q: Sfv) returns (sum: real)
    ensures sum == SqDist(p, q)
  {
    sum := 0.0;
    var i, j := 0, 0;
    while i < |p| && j < |q|
      invariant 0 <= i <= |p| && 0 <= j <= |q|
      invariant sum + SqDist(p[i..], q[j..]) == SqDist(p, q)
      decreases |p| - i + |q| - j
    {
      SqDistStep(p, i, q, j);
      if p[i].key < q[j].key {
        sum := sum + p[i].value * p[i].value;
        i := i + 1;
      } else if p[i].key > q[j].key {
        sum := sum + q[j].value * q[j].value;
        j := j + 1;
      } else {
        sum := sum + (p[i].value - q[j].value) * (p[i].value - q[j].value);
        i, j := i + 1, j + 1;
      }
    }
    while i < |p|
      invariant 0 <= i <= |p| && 0 <= j <= |q| && (i < |p| ==> j == |q|)
      invariant sum + SqDist(p[i..], q[j..]) == SqDist(p, q)
    {
      SqDistStep(p, i, q, j);
      sum := sum + p[i].value * p[i].value;
      i := i + 1;
    }
    while j < |q|
      invariant 0 <= j <= |q| && i == |p|
      invariant sum + SqDist(p[i..], q[j..]) == SqDist(p, q)
    {
      SqDistStep(p, i, q, j);
      sum := sum + q[j].value * q[j].value;
      j := j + 1;
    }
  }
}
