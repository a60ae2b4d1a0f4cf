/** The order every sort promises: rows by key, equal keys in push order, and
    under dedup only the first row of each key. */
module StableOrder {
  import opened Rows

  ghost predicate Sorted(rows: seq<Row>) {
    forall i, j | 0 <= i < j < |rows| :: rows[i].key <= rows[j].key
  }

  /** The rows that carry key `k`, in their order. */
  function WithKey(rows: seq<Row>, k: Key): seq<Row> {
    if rows == [] then [] else (if rows[0].key == k then [rows[0]] else []) + WithKey(rows[1..], k)
  }

  /** `out` holds the rows of `rows` by key, and rows of one key keep their order. */
  ghost predicate IsStableSort(out: seq<Row>, rows: seq<Row>) {
    Sorted(out) && forall k :: WithKey(out, k) == WithKey(rows, k)
  }

  function Insert(row: Row, rows: seq<Row>): seq<Row> {
    if rows == [] || row.key <= rows[0].key then [row] + rows else [rows[0]] + Insert(row, rows[1..])
  }

  function StableSort(rows: seq<Row>): seq<Row> {
    if rows == [] then [] else Insert(rows[0], StableSort(rows[1..]))
  }

  // ----- rows of one key -----

  lemma {:induction false} WithKeyConcat(a: seq<Row>, b: seq<Row>, k: Key)
    ensures WithKey(a + b, k) == WithKey(a, k) + WithKey(b, k)
  {
    if a == [] {
      assert a + b == b;
    } else {
      var head, rest := if a[0].key == k then [a[0]] else [], WithKey(a[1..], k);
      assert (a + b)[1..] == a[1..] + b;
      WithKeyConcat(a[1..], b, k);
      assert head + (rest + WithKey(b, k)) == (head + rest) + WithKey(b, k);
    }
  }

  lemma {:induction false} WithKeyMember(rows: seq<Row>, r: Row)
    ensures r in rows <==> r in WithKey(rows, r.key)
  {
    if rows != [] {
      WithKeyMember(rows[1..], r);
      assert rows == [rows[0]] + rows[1..];
    }
  }

  lemma {:induction false} WithKeyOnly(rows: seq<Row>, k: Key)
    ensures forall r | r in WithKey(rows, k) :: r.key == k && r in rows
    ensures (exists r :: r in rows && r.key == k) ==> WithKey(rows, k) != []
  {
    if rows != [] {
      WithKeyOnly(rows[1..], k);
    }
  }

  lemma {:induction false} WithKeyNone(rows: seq<Row>, k: Key)
    requires forall r | r in rows :: r.key != k
    ensures WithKey(rows, k) == []
  {
    if rows != [] {
      WithKeyNone(rows[1..], k);
    }
  }

  lemma WithKeyCons(row: Row, rows: seq<Row>, k: Key)
    ensures WithKey([row] + rows, k) == (if row.key == k then [row] else []) + WithKey(rows, k)
  {
    assert ([row] + rows)[1..] == rows;
  }

  // ----- the stable sort exists and is unique -----

  lemma {:induction false} InsertKey(row: Row, rows: seq<Row>, k: Key)
    requires Sorted(rows)
    ensures WithKey(Insert(row, rows), k) == WithKey([row] + rows, k)
  {
    if rows == [] || row.key <= rows[0].key {
    } else {
      var first, tail := rows[0], rows[1..];
      InsertKey(row, tail, k);
      WithKeyCons(first, Insert(row, tail), k);
      WithKeyCons(row, tail, k);
      WithKeyCons(row, rows, k);
    }
  }

  lemma {:induction false} InsertMultiset(row: Row, rows: seq<Row>)
    ensures multiset(Insert(row, rows)) == multiset{row} + multiset(rows)
  {
    if rows == [] || row.key <= rows[0].key {
    } else {
      InsertMultiset(row, rows[1..]);
      assert rows == [rows[0]] + rows[1..];
    }
  }

  lemma InsertMember(row: Row, rows: seq<Row>, r: Row)
    requires r in Insert(row, rows)
    ensures r == row || r in rows
  {
    InsertMultiset(row, rows);
    assert r in multiset(Insert(row, rows));
  }

  lemma {:induction false} InsertSorted(row: Row, rows: seq<Row>)
    requires Sorted(rows)
    ensures Sorted(Insert(row, rows))
  {
    if rows == [] || row.key <= rows[0].key {
    } else {
      var rest := Insert(row, rows[1..]);
      InsertSorted(row, rows[1..]);
      forall r | r in rest ensures rows[0].key <= r.key {
        InsertMember(row, rows[1..], r);
      }
    }
  }

  lemma {:induction false} StableSortMultiset(rows: seq<Row>)
    ensures multiset(StableSort(rows)) == multiset(rows)
    ensures |StableSort(rows)| == |rows|
  {
    if rows != [] {
      StableSortMultiset(rows[1..]);
      InsertMultiset(rows[0], StableSort(rows[1..]));
      assert rows == [rows[0]] + rows[1..];
    }
    assert |multiset(StableSort(rows))| == |multiset(rows)|;
  }

  /** StableSort meets its description. */
  lemma {:induction false} StableSortIsStable(rows: seq<Row>)
    ensures IsStableSort(StableSort(rows), rows)
  {
    if rows != [] {
      var tail := rows[1..];
      StableSortIsStable(tail);
      InsertSorted(rows[0], StableSort(tail));
      forall k ensures WithKey(StableSort(rows), k) == WithKey(rows, k) {
        InsertKey(rows[0], StableSort(tail), k);
        WithKeyCons(rows[0], StableSort(tail), k);
      }
    }
  }

  lemma FirstWithKey(rows: seq<Row>)
    requires rows != []
    ensures WithKey(rows, rows[0].key) != [] && WithKey(rows, rows[0].key)[0] == rows[0]
  {
  }

  /** The head of a sorted sequence is fixed by its rows of each key. */
  lemma SameHead(a: seq<Row>, b: seq<Row>)
    requires Sorted(a) && Sorted(b) && a != []
    requires forall k :: WithKey(a, k) == WithKey(b, k)
    ensures b != [] && a[0] == b[0]
  {
    hide WithKey;
    var k := a[0].key;
    FirstWithKey(a);
    WithKeyOnly(b, k);
    assert a[0] in WithKey(b, k);
    assert b[0].key <= k;
    WithKeyOnly(a, b[0].key);
    FirstWithKey(b);
    assert b[0] in WithKey(a, b[0].key);
  }

  /** At most one sequence meets the description. */
  lemma {:induction false} StableSortUnique(a: seq<Row>, b: seq<Row>)
    requires Sorted(a) && Sorted(b)
    requires forall k :: WithKey(a, k) == WithKey(b, k)
    ensures a == b
  {
    if a == [] {
      if b != [] {
        SameHead(b, a);
      }
    } else {
      SameHead(a, b);
      forall k ensures WithKey(a[1..], k) == WithKey(b[1..], k) {
        var head := if a[0].key == k then [a[0]] else [];
        WithKeyCons(a[0], a[1..], k);
        WithKeyCons(b[0], b[1..], k);
        assert a == [a[0]] + a[1..] && b == [b[0]] + b[1..];
        assert head + WithKey(a[1..], k) == head + WithKey(b[1..], k);
        assert (head + WithKey(a[1..], k))[|head|..] == WithKey(a[1..], k);
        assert (head + WithKey(b[1..], k))[|head|..] == WithKey(b[1..], k);
      }
      StableSortUnique(a[1..], b[1..]);
      assert a == [a[0]] + a[1..] && b == [b[0]] + b[1..];
    }
  }

  lemma StableSortOf(out: seq<Row>, rows: seq<Row>)
    ensures IsStableSort(out, rows) <==> out == StableSort(rows)
  {
    StableSortIsStable(rows);
    if IsStableSort(out, rows) {
      StableSortUnique(out, StableSort(rows));
    }
  }

  lemma SortedIsFixed(rows: seq<Row>)
    requires Sorted(rows)
    ensures StableSort(rows) == rows
  {
    StableSortOf(rows, rows);
  }

  /** Both hold the same rows of each key in the same order. */
  ghost predicate SameByKey(a: seq<Row>, b: seq<Row>) {
    forall k :: WithKey(a, k) == WithKey(b, k)
  }

  lemma SortsAgree(a: seq<Row>, b: seq<Row>)
    ensures StableSort(a) == StableSort(b) <==> SameByKey(a, b)
  {
    StableSortIsStable(a);
    StableSortIsStable(b);
    if SameByKey(a, b) {
      StableSortUnique(StableSort(a), StableSort(b));
    } else {
      var k :| WithKey(a, k) != WithKey(b, k);
      assert WithKey(StableSort(a), k) != WithKey(StableSort(b), k);
    }
  }

  lemma SameByKeyConcat(a: seq<Row>, a': seq<Row>, b: seq<Row>, b': seq<Row>)
    requires SameByKey(a, a') && SameByKey(b, b')
    ensures SameByKey(a + b, a' + b')
  {
    forall k ensures WithKey(a + b, k) == WithKey(a' + b', k) {
      WithKeyConcat(a, b, k);
      WithKeyConcat(a', b', k);
    }
  }

  /** Sorting any segment first does not change the stable sort of the whole:
      this is why contiguous runs may be merged in any number of passes. */
  lemma SortSegmentFirst(before: seq<Row>, segment: seq<Row>, after: seq<Row>)
    ensures StableSort(before + StableSort(segment) + after) == StableSort(before + segment + after)
  {
    StableSortIsStable(segment);
    SameByKeyConcat(before, before, StableSort(segment), segment);
    SameByKeyConcat(before + StableSort(segment), before + segment, after, after);
    SortsAgree(before + StableSort(segment) + after, before + segment + after);
  }

  /** Rows that sort alike, extended by rows and by their stable sort, sort alike. */
  lemma SortsExtend(a: seq<Row>, a': seq<Row>, b: seq<Row>)
    requires StableSort(a) == StableSort(a')
    ensures StableSort(a + StableSort(b)) == StableSort(a' + b)
  {
    StableSortIsStable(b);
    SortsAgree(a, a');
    SameByKeyConcat(a, a', StableSort(b), b);
    SortsAgree(a + StableSort(b), a' + b);
  }

  // ----- the in-place sort by key and ordinal -----

  /** The comparison passed to the in-place sort: key first, then ordinal. */
  predicate Before(a: Row, b: Row) {
    a.key < b.key || (a.key == b.key && a.ordinal <= b.ordinal)
  }

  ghost predicate OrdinalsIncrease(rows: seq<Row>) {
    forall i, j | 0 <= i < j < |rows| :: rows[i].ordinal < rows[j].ordinal
  }

  ghost predicate InOrder(rows: seq<Row>) {
    forall i, j | 0 <= i < j < |rows| :: Before(rows[i], rows[j])
  }

  lemma {:induction false} InsertInOrder(row: Row, rows: seq<Row>)
    requires InOrder(rows) && forall r | r in rows :: row.ordinal < r.ordinal
    ensures InOrder(Insert(row, rows))
  {
    if rows == [] || row.key <= rows[0].key {
    } else {
      var rest := Insert(row, rows[1..]);
      InsertInOrder(row, rows[1..]);
      forall r | r in rest ensures Before(rows[0], r) {
        InsertMember(row, rows[1..], r);
      }
    }
  }

  lemma {:induction false} StableSortInOrder(rows: seq<Row>)
    requires OrdinalsIncrease(rows)
    ensures InOrder(StableSort(rows))
  {
    if rows != [] {
      StableSortInOrder(rows[1..]);
      StableSortMultiset(rows[1..]);
      forall r | r in StableSort(rows[1..]) ensures rows[0].ordinal < r.ordinal {
        assert r in multiset(StableSort(rows[1..]));
      }
      InsertInOrder(rows[0], StableSort(rows[1..]));
    }
  }

  lemma {:induction false} InOrderUnique(a: seq<Row>, b: seq<Row>)
    requires multiset(a) == multiset(b) && InOrder(a) && InOrder(b)
    requires forall r, q | r in a && q in a && r.ordinal == q.ordinal :: r == q
    ensures a == b
  {
    if a == [] {
      assert |b| == |multiset(b)| == 0;
    } else {
      LeastInOrder(a, b);
      assert a == [a[0]] + a[1..] && b == [b[0]] + b[1..];
      assert multiset(a[1..]) == multiset(b[1..]) by {
        assert multiset(a[1..]) == multiset(a) - multiset{a[0]};
        assert multiset(b[1..]) == multiset(b) - multiset{b[0]};
      }
      InOrderUnique(a[1..], b[1..]);
    }
  }

  lemma LeastInOrder(a: seq<Row>, b: seq<Row>)
    requires multiset(a) == multiset(b) && InOrder(a) && InOrder(b) && a != []
    requires forall r, q | r in a && q in a && r.ordinal == q.ordinal :: r == q
    ensures b != [] && a[0] == b[0]
  {
    assert a[0] in multiset(b) && a[0] in b;
    assert b[0] in multiset(a) && b[0] in a;
  }

  /** Any permutation ordered by key and ordinal, such as an unstable sort
      returns, is the stable sort of a buffer whose ordinals follow push order. */
  lemma OrdinalSortIsStable(out: seq<Row>, rows: seq<Row>)
    requires OrdinalsIncrease(rows)
    requires multiset(out) == multiset(rows) && InOrder(out)
    ensures out == StableSort(rows)
  {
    StableSortInOrder(rows);
    StableSortMultiset(rows);
    forall r, q | r in out && q in out && r.ordinal == q.ordinal ensures r == q {
      assert r in multiset(rows) && q in multiset(rows);
    }
    InOrderUnique(out, StableSort(rows));
  }

  // ----- dedup -----

  /** Drop every row whose key equals the key emitted just before it. */
  function Collapse(last: Option<Key>, rows: seq<Row>): seq<Row>
    decreases rows
  {
    if rows == [] then []
    else if last == Some(rows[0].key) then Collapse(last, rows[1..])
    else [rows[0]] + Collapse(Some(rows[0].key), rows[1..])
  }

  ghost predicate KeysIncrease(rows: seq<Row>) {
    forall i, j | 0 <= i < j < |rows| :: rows[i].key < rows[j].key
  }

  /** What a merge emits from sorted rows, with `last` its last dedup key. */
  function Emitted(dedup: bool, last: Option<Key>, rows: seq<Row>): seq<Row> {
    if dedup then Collapse(last, rows) else rows
  }

  /** The promised output for the accepted rows. */
  function Reference(dedup: bool, rows: seq<Row>): seq<Row> {
    Emitted(dedup, None, StableSort(rows))
  }

  lemma {:induction false} CollapseMember(last: Option<Key>, rows: seq<Row>, r: Row)
    requires Sorted(rows)
    requires last.Some? ==> forall q | q in rows :: last.value <= q.key
    requires r in Collapse(last, rows)
    ensures r in rows && last != Some(r.key)
    decreases rows
  {
    if last == Some(rows[0].key) || r != rows[0] {
      CollapseMember(Some(rows[0].key), rows[1..], r);
    }
  }

  lemma {:induction false} CollapseIncreases(last: Option<Key>, rows: seq<Row>)
    requires Sorted(rows)
    requires last.Some? ==> forall q | q in rows :: last.value <= q.key
    ensures KeysIncrease(Collapse(last, rows))
    decreases rows
  {
    if rows != [] {
      var k := rows[0].key;
      CollapseIncreases(Some(k), rows[1..]);
      forall r | r in Collapse(Some(k), rows[1..]) ensures k < r.key {
        CollapseMember(Some(k), rows[1..], r);
      }
    }
  }

  lemma {:induction false} CollapseKey(last: Option<Key>, rows: seq<Row>, k: Key)
    requires Sorted(rows)
    requires last.Some? ==> forall q | q in rows :: last.value <= q.key
    ensures WithKey(Collapse(last, rows), k) ==
      (if last == Some(k) || WithKey(rows, k) == [] then [] else [WithKey(rows, k)[0]])
    decreases rows
  {
    if rows != [] {
      var first, tail := rows[0], rows[1..];
      CollapseKey(Some(first.key), tail, k);
      if last != Some(first.key) {
        WithKeyCons(first, Collapse(Some(first.key), tail), k);
        if last == Some(k) {
          WithKeyNone(rows, k);
        }
      }
    }
  }

  /** The reference output means what it should: without dedup it is the stable
      sort; under dedup keys strictly increase, and a row is emitted iff it is
      the first accepted row of its key. */
  lemma ReferenceMeaning(dedup: bool, rows: seq<Row>)
    ensures !dedup ==> IsStableSort(Reference(dedup, rows), rows)
    ensures dedup ==> KeysIncrease(Reference(dedup, rows))
    ensures dedup ==> forall r :: r in Reference(dedup, rows) <==>
      WithKey(rows, r.key) != [] && WithKey(rows, r.key)[0] == r
  {
    StableSortIsStable(rows);
    if dedup {
      CollapseIncreases(None, StableSort(rows));
      forall r ensures r in Reference(dedup, rows) <==>
        WithKey(rows, r.key) != [] && WithKey(rows, r.key)[0] == r
      {
        CollapseKey(None, StableSort(rows), r.key);
        WithKeyMember(Reference(dedup, rows), r);
      }
    }
  }

  // ----- one merge step -----

  /** Source `i` has the least head, earlier sources first on equal keys. */
  ghost predicate IsLeastSource(sources: seq<seq<Row>>, i: nat) {
    && i < |sources| && sources[i] != []
    && forall j | 0 <= j < |sources| && sources[j] != [] ::
         sources[i][0].key < sources[j][0].key || (sources[i][0].key == sources[j][0].key && i <= j)
  }

  lemma {:induction false} FlattenMember(parts: seq<seq<Row>>, r: Row)
    requires r in Flatten(parts)
    ensures exists i :: 0 <= i < |parts| && r in parts[i]
  {
    if parts != [] {
      if r in parts[0] {
      } else {
        FlattenMember(parts[1..], r);
        var i :| 0 <= i < |parts[1..]| && r in parts[1..][i];
        assert r in parts[i + 1];
      }
    }
  }

  lemma HeadIsLeast(sources: seq<seq<Row>>, i: nat, r: Row)
    requires forall j | 0 <= j < |sources| :: Sorted(sources[j])
    requires IsLeastSource(sources, i)
    requires r in Flatten(sources)
    ensures sources[i][0].key <= r.key
  {
    FlattenMember(sources, r);
    var j :| 0 <= j < |sources| && r in sources[j];
    assert sources[j][0].key <= r.key;
  }

  lemma LeftHasOtherKeys(sources: seq<seq<Row>>, i: nat, r: Row)
    requires forall j | 0 <= j < |sources| :: Sorted(sources[j])
    requires IsLeastSource(sources, i)
    requires r in Flatten(sources[..i])
    ensures sources[i][0].key < r.key
  {
    FlattenMember(sources[..i], r);
    var j :| 0 <= j < i && r in sources[..i][j];
    assert sources[j] == sources[..i][j];
    assert sources[j][0].key <= r.key;
  }

  lemma WithKeyAround(left: seq<Row>, middle: seq<Row>, right: seq<Row>, k: Key)
    ensures WithKey(left + middle + right, k) == WithKey(left, k) + WithKey(middle, k) + WithKey(right, k)
  {
    WithKeyConcat(left, middle, k);
    WithKeyConcat(left + middle, right, k);
  }

  lemma FlattenUpdated(sources: seq<seq<Row>>, i: nat, part: seq<Row>)
    requires i < |sources|
    ensures Flatten(sources[i := part]) == Flatten(sources[..i]) + part + Flatten(sources[i + 1..])
  {
    FlattenAround(sources[i := part], i);
    assert sources[i := part][..i] == sources[..i];
    assert sources[i := part][i + 1..] == sources[i + 1..];
  }

  lemma TakeMiddleHead(left: seq<Row>, h: Row, tail: seq<Row>, right: seq<Row>, k: Key)
    requires k == h.key ==> WithKey(left, k) == []
    ensures WithKey(left + ([h] + tail) + right, k) == WithKey([h], k) + WithKey(left + tail + right, k)
  {
    WithKeyAround(left, [h] + tail, right, k);
    WithKeyAround(left, tail, right, k);
    WithKeyCons(h, tail, k);
  }

  /** Emitting the least head by (key, source index) emits the first row of the
      stable sort of the sources in source order; the rest stays to be sorted. */
  lemma MergeStep(sources: seq<seq<Row>>, i: nat)
    requires forall j | 0 <= j < |sources| :: Sorted(sources[j])
    requires IsLeastSource(sources, i)
    ensures StableSort(Flatten(sources)) ==
      [sources[i][0]] + StableSort(Flatten(sources[i := sources[i][1..]]))
  {
    var h, tail := sources[i][0], sources[i][1..];
    var left, right := Flatten(sources[..i]), Flatten(sources[i + 1..]);
    var rest := left + tail + right;
    assert sources[i] == [h] + tail;
    FlattenAround(sources, i);
    FlattenUpdated(sources, i, tail);
    forall r | r in left ensures r.key != h.key {
      LeftHasOtherKeys(sources, i, r);
    }
    WithKeyNone(left, h.key);
    forall r | r in rest ensures h.key <= r.key {
      assert r in left || r in [h] + tail || r in right;
      HeadIsLeast(sources, i, r);
    }
    TakeHead(left, h, tail, right);
  }

  lemma TakeHead(left: seq<Row>, h: Row, tail: seq<Row>, right: seq<Row>)
    requires WithKey(left, h.key) == []
    requires forall r | r in left + tail + right :: h.key <= r.key
    ensures StableSort(left + ([h] + tail) + right) == [h] + StableSort(left + tail + right)
  {
    var rest, whole := left + tail + right, left + ([h] + tail) + right;
    var sorted := StableSort(rest);
    StableSortIsStable(rest);
    SortedCons(h, rest);
    forall k ensures WithKey([h] + sorted, k) == WithKey(whole, k) {
      TakeMiddleHead(left, h, tail, right, k);
      WithKeyCons(h, sorted, k);
    }
    StableSortOf([h] + sorted, whole);
  }

  lemma SortedCons(h: Row, rest: seq<Row>)
    requires forall r | r in rest :: h.key <= r.key
    ensures Sorted([h] + StableSort(rest))
  {
    StableSortIsStable(rest);
    StableSortMultiset(rest);
    forall r | r in StableSort(rest) ensures h.key <= r.key {
      assert r in multiset(StableSort(rest));
    }
  }
}
