/**
 * The line/justify grouping that both the card's `render` and the editor's
 * `linePreview` perform: the line an item goes to, the bucket its `justify`
 * selects, which items end up in which bucket, and the order of the lines.
 */
module LineLayout {
  import opened Wrappers
  import opened JsValues
  import opened Content

  datatype Bucket = Start | Center | End

  /** `item.line || 1`: the key of the line an item is grouped on. */
  function LineKey(it: Item): (k: Value)
    ensures Truthy(k)
    ensures Truthy(it.line) ==> k == it.line
    ensures !Truthy(it.line) ==> k == DefaultLine
  {
    Or(it.line, DefaultLine)
  }

  /**
   * The card's `switch (item.justify)`: 'center' is centred, 'flex-end',
   * 'space-between' and 'space-around' go to the end, and every other value
   * (including 'space-evenly') falls through to the start.
   */
  function CardBucket(justify: Value): (b: Bucket)
    ensures b == Center <==> justify == Str("center")
    ensures b == End <==> justify in {Str("flex-end"), Str("space-between"), Str("space-around")}
    ensures b == Start <==> !justify.Str? || justify.s !in {"center", "flex-end", "space-between", "space-around"}
  {
    if justify == Str("flex-start") then Start
    else if justify == Str("center") then Center
    else if justify == Str("flex-end") || justify == Str("space-between") || justify == Str("space-around") then End
    else Start
  }

  /** The editor's `switch (item.justify)`: as the card's, but 'space-evenly' goes to the end. */
  function EditorBucket(justify: Value): (b: Bucket)
    ensures b == Center <==> justify == Str("center")
    ensures b == End <==> justify in {Str("flex-end"), Str("space-between"), Str("space-around"), Str("space-evenly")}
    ensures b == Start <==> !justify.Str? || justify.s !in {"center", "flex-end", "space-between", "space-around", "space-evenly"}
  {
    if justify == Str("flex-start") then Start
    else if justify == Str("center") then Center
    else if || justify == Str("flex-end") || justify == Str("space-between")
            || justify == Str("space-around") || justify == Str("space-evenly") then End
    else Start
  }

  /** The two components agree on every justify value except 'space-evenly'. */
  lemma BucketsDisagreeOnlyOnSpaceEvenly(justify: Value)
    ensures CardBucket(justify) != EditorBucket(justify) <==> justify == Str("space-evenly")
    ensures justify == Str("space-evenly") ==> CardBucket(justify) == Start && EditorBucket(justify) == End
  {
  }

  /** Which of the two components groups the items: they differ on 'space-evenly'. */
  datatype Layout = CardLayout | EditorLayout

  function BucketOf(layout: Layout, justify: Value): Bucket {
    match layout
    case CardLayout => CardBucket(justify)
    case EditorLayout => EditorBucket(justify)
  }

  /** Item `i` goes to line `k` and to its bucket `b`. */
  predicate InBucket(items: seq<Item>, i: nat, k: Value, layout: Layout, b: Bucket)
    requires i < |items|
  {
    LineKey(items[i]) == k && BucketOf(layout, items[i].justify) == b
  }

  /**
   * The positions `i < n` of the items that land in bucket `b` of line `k`,
   * in the order the grouping loop pushes them.
   */
  function Positions(items: seq<Item>, n: nat, k: Value, layout: Layout, b: Bucket): (ps: seq<nat>)
    requires n <= |items|
    ensures forall j :: 0 <= j < |ps| ==> ps[j] < n
    ensures forall j, j' :: 0 <= j < j' < |ps| ==> ps[j] < ps[j']
    ensures forall i :: 0 <= i < n ==> (i in ps <==> InBucket(items, i, k, layout, b))
    decreases n
  {
    if n == 0 then []
    else
      var ps := Positions(items, n - 1, k, layout, b);
      if LineKey(items[n - 1]) == k && BucketOf(layout, items[n - 1].justify) == b then ps + [n - 1] else ps
  }

  /** One more item extends the positions of its own line and bucket by its index, and no others. */
  lemma PositionsStep(items: seq<Item>, i: nat, k: Value, layout: Layout, b: Bucket)
    requires i < |items|
    ensures Positions(items, i + 1, k, layout, b) ==
      if InBucket(items, i, k, layout, b) then Positions(items, i, k, layout, b) + [i] else Positions(items, i, k, layout, b)
  {
  }

  /** A line no item before `n` goes to has no positions in any bucket. */
  lemma {:induction false} PositionsAbsent(items: seq<Item>, n: nat, k: Value, layout: Layout, b: Bucket)
    requires n <= |items|
    requires forall i :: 0 <= i < n ==> LineKey(items[i]) != k
    ensures Positions(items, n, k, layout, b) == []
  {
    if n > 0 {
      PositionsAbsent(items, n - 1, k, layout, b);
    }
  }

  /** Every item is placed in exactly one bucket of exactly one line. */
  lemma PlacedExactlyOnce(items: seq<Item>, layout: Layout, i: nat, k: Value, b: Bucket)
    requires i < |items|
    ensures i in Positions(items, |items|, LineKey(items[i]), layout, BucketOf(layout, items[i].justify))
    ensures i in Positions(items, |items|, k, layout, b) ==> k == LineKey(items[i]) && b == BucketOf(layout, items[i].justify)
  {
  }

  predicate NoDuplicates(ks: seq<Value>) {
    forall j, j' :: 0 <= j < j' < |ks| ==> ks[j] != ks[j']
  }

  /** The keys of the `lines` map after the first `n` items, in insertion order. */
  function LineKeys(items: seq<Item>, n: nat): (ks: seq<Value>)
    requires n <= |items|
    ensures NoDuplicates(ks)
    ensures forall i :: 0 <= i < n ==> LineKey(items[i]) in ks
    decreases n
  {
    if n == 0 then []
    else
      var ks := LineKeys(items, n - 1);
      var k := LineKey(items[n - 1]);
      if k in ks then ks else ks + [k]
  }

  /** Every key is the line key of some item among the first `n`. */
  lemma {:induction false} LineKeysFrom(items: seq<Item>, n: nat, k: Value)
    requires 0 < n <= |items| && k in LineKeys(items, n)
    ensures exists i :: 0 <= i < n && LineKey(items[i]) == k
    decreases n
  {
    if k in LineKeys(items, n - 1) {
      LineKeysFrom(items, n - 1, k);
    }
  }

  /** One more item adds its line key at the end when it is new, and nothing otherwise. */
  lemma LineKeysStep(items: seq<Item>, i: nat)
    requires i < |items|
    ensures LineKeys(items, i + 1) ==
      if LineKey(items[i]) in LineKeys(items, i) then LineKeys(items, i) else LineKeys(items, i) + [LineKey(items[i])]
  {
  }

  /** `lines.has(k)` and the index `lines.get(k)` reads: where `k` sits among the keys, if anywhere. */
  function IndexOf(ks: seq<Value>, k: Value): (r: Option<nat>)
    ensures r.None? <==> k !in ks
    ensures r.Some? ==> r.value < |ks| && ks[r.value] == k
  {
    if ks == [] then None
    else if ks[0] == k then Some(0)
    else match IndexOf(ks[1..], k)
      case None => None
      case Some(j) => Some(j + 1)
  }

  /**
   * The number the comparator `(a, b) => a - b` sees for a line key.
   * Only numbers and booleans are given one; a key of any other kind
   * (a string such as "2", an object) is left without a number.
   */
  function NumberOf(k: Value): Option<real> {
    match k
    case Num(x) => Some(x)
    case Bool(b) => Some(if b then 1.0 else 0.0)
    case Null => Some(0.0)
    case _ => None
  }

  /** `a - b < 0`: `a` sorts before `b`. Keys without a number compare as equal to everything. */
  predicate Before(a: Value, b: Value) {
    NumberOf(a).Some? && NumberOf(b).Some? && NumberOf(a).value < NumberOf(b).value
  }

  predicate Sorted(ks: seq<Value>) {
    forall j, j' :: 0 <= j < j' < |ks| ==> !Before(ks[j'], ks[j])
  }

  /** Inserts `x` after every key that does not sort after it (so equal keys keep their order). */
  function Insert(x: Value, s: seq<Value>): (r: seq<Value>)
    requires Sorted(s)
    ensures Sorted(r)
    ensures multiset(r) == multiset(s) + multiset{x}
  {
    if s == [] then [x]
    else if Before(x, s[0]) then [x] + s
    else
      var t := Insert(x, s[1..]);
      InsertBehindHead(x, s, t);
      [s[0]] + t
  }

  /** Inserting behind the first key keeps the order when the new key does not sort before it. */
  lemma InsertBehindHead(x: Value, s: seq<Value>, t: seq<Value>)
    requires Sorted(s) && s != [] && !Before(x, s[0])
    requires Sorted(t) && multiset(t) == multiset(s[1..]) + multiset{x}
    ensures Sorted([s[0]] + t)
    ensures multiset([s[0]] + t) == multiset(s) + multiset{x}
  {
    assert s == [s[0]] + s[1..];
    forall m | 0 <= m < |t| ensures !Before(t[m], s[0]) {
      assert t[m] in multiset(t);
      assert t[m] == x || t[m] in s[1..];
    }
  }

  /** `[...lines.keys()].sort((a, b) => a - b)`, as a stable insertion sort. */
  function SortLines(ks: seq<Value>): (r: seq<Value>)
    ensures Sorted(r)
    ensures multiset(r) == multiset(ks)
  {
    if ks == [] then []
    else
      var n := |ks| - 1;
      assert ks == ks[..n] + [ks[n]];
      Insert(ks[n], SortLines(ks[..n]))
  }

  lemma {:induction false} NoDuplicatesCount(s: seq<Value>, x: Value)
    requires NoDuplicates(s)
    ensures multiset(s)[x] <= 1
  {
    if s != [] {
      assert s == [s[0]] + s[1..];
      NoDuplicatesCount(s[1..], x);
      if s[0] == x {
        assert x !in s[1..];
      }
    }
  }

  lemma DuplicateCount(s: seq<Value>, j: nat, j': nat)
    requires j < j' < |s| && s[j] == s[j']
    ensures multiset(s)[s[j]] >= 2
  {
    assert s == s[..j'] + [s[j']] + s[j' + 1..];
    assert s[j] in s[..j'];
  }

  /** Sorting keeps distinct keys distinct and keeps exactly the keys it was given. */
  lemma SortLinesDistinct(ks: seq<Value>)
    requires NoDuplicates(ks)
    ensures NoDuplicates(SortLines(ks))
    ensures forall k :: k in SortLines(ks) <==> k in ks
  {
    var r := SortLines(ks);
    forall k ensures k in r <==> k in ks {
      assert k in r <==> k in multiset(r);
      assert k in ks <==> k in multiset(ks);
    }
    forall j, j' | 0 <= j < j' < |r| ensures r[j] != r[j'] {
      if r[j] == r[j'] {
        DuplicateCount(r, j, j');
        NoDuplicatesCount(ks, r[j]);
      }
    }
  }

  /**
   * With numeric line keys, the sorted keys are the distinct keys in
   * strictly ascending numeric order, each exactly once.
   */
  lemma SortedLinesAscend(ks: seq<Value>)
    requires NoDuplicates(ks)
    requires forall k :: k in ks ==> k.Num?
    ensures var r := SortLines(ks);
      && NoDuplicates(r)
      && (forall k :: k in r <==> k in ks)
      && (forall j, j' :: 0 <= j < j' < |r| ==> r[j].x < r[j'].x)
  {
    var r := SortLines(ks);
    SortLinesDistinct(ks);
    forall j, j' | 0 <= j < j' < |r| ensures r[j].x < r[j'].x {
      assert r[j] in ks && r[j'] in ks;
      assert !Before(r[j'], r[j]);
    }
  }

  /**
   * The row-class index `((line - 1) % 7) + 1` of `dc-row-<index>`, with
   * JavaScript's `%` (the remainder truncates toward zero): an index in
   * [1, 8) for a line of 1 or more, in (-6, 1] below that, and always a
   * whole multiple of 7 away from the line; so an integral line of 1 or
   * more gets one of the seven indices 1..7, for which row styles exist,
   * and a fractional line gets a fractional index.
   */
  function RowIndex(line: real): (r: real)
    ensures line >= 1.0 ==> 1.0 <= r < 8.0
    ensures line < 1.0 ==> -6.0 < r <= 1.0
    ensures ((line - r) / 7.0).Floor as real == (line - r) / 7.0
    ensures line.Floor as real == line ==> r.Floor as real == r
  {
    var q := TruncatedSevenths(line - 1.0);
    var r := line - 7.0 * q as real;
    assert (line - r) / 7.0 == q as real;
    assert line.Floor as real == line ==> r == (line.Floor - 7 * q) as real;
    r
  }

  /** The quotient of `a / 7` truncated toward zero, as JavaScript's `%` uses it. */
  function TruncatedSevenths(a: real): (q: int)
    ensures a >= 0.0 ==> 7.0 * q as real <= a < 7.0 * q as real + 7.0
    ensures a < 0.0 ==> 7.0 * q as real - 7.0 < a <= 7.0 * q as real
  {
    if a >= 0.0 then (a / 7.0).Floor else -((-a) / 7.0).Floor
  }

  /** An integral line of 1 or more gets one of the seven styled indices 1..7. */
  lemma RowIndexStyled(line: real)
    requires line.Floor as real == line && line >= 1.0
    ensures var r := RowIndex(line); 1.0 <= r <= 7.0 && r.Floor as real == r
  {
    var r := RowIndex(line);
    assert r.Floor < 8;
  }

  /**
   * The row index of a line key: `lineNumber - 1` converts the key to a
   * number, so a boolean key gets the index of 0 or 1; a key without a
   * number gets none (the class reads `dc-row-NaN`).
   */
  function RowIndexOf(k: Value): (r: Option<real>)
    ensures r.Some? <==> NumberOf(k).Some?
    ensures r.Some? ==> r.value == RowIndex(NumberOf(k).value)
  {
    match NumberOf(k)
    case Some(x) => Some(RowIndex(x))
    case None => None
  }

  /** Row indices of some keys, as the source's arithmetic gives them. */
  lemma RowIndexExamples()
    ensures RowIndexOf(Bool(true)) == Some(1.0)
    ensures RowIndexOf(Num(1.5)) == Some(1.5)
    ensures RowIndexOf(Num(9.0)) == Some(2.0)
    ensures RowIndexOf(Num(-1.0)) == Some(-1.0)
    ensures RowIndexOf(Str("3")) == None
  {
    assert (8.0 / 7.0).Floor == 1;
    assert (2.0 / 7.0).Floor == 0;
  }
}
