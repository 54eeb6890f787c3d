/** Justified row layout: photos packed greedily into rows of exactly the container width. */
module JustifiedLayout {

  datatype Box = Box(top: real, left: real, width: real, height: real)

  datatype Options = Options(containerWidth: real, targetRowHeight: real, gap: real)

  datatype Result = Result(boxes: seq<Box>, containerHeight: real)

  /** What the layout is promised for: positive sizes, and a gap no larger than any photo at target height. */
  ghost predicate Sensible(ratios: seq<real>, o: Options) {
    && o.containerWidth > 0.0 && o.targetRowHeight > 0.0 && o.gap >= 0.0
    && forall i :: 0 <= i < |ratios| ==> ratios[i] > 0.0 && o.gap <= o.targetRowHeight * ratios[i]
  }

  // --- what a row is ---

  predicate Keeps(b: Box, ratio: real, top: real, height: real) {
    b.top == top && b.height == height && b.width == ratio * height
  }

  predicate Follows(a: Box, b: Box, gap: real) {
    b.left == a.left + a.width + gap
  }

  /** Boxes `start..end` stand side by side at one top and height, ratios kept. */
  ghost predicate IsRow(ratios: seq<real>, o: Options, boxes: seq<Box>, start: nat, end: nat, top: real, height: real)
  {
    && start < end <= |boxes| <= |ratios|
    && boxes[start].left == 0.0
    && (forall i {:trigger Keeps(boxes[i], ratios[i], top, height)} :: start <= i < end ==> Keeps(boxes[i], ratios[i], top, height))
    && (forall i {:trigger Follows(boxes[i - 1], boxes[i], o.gap)} :: start < i < end ==> Follows(boxes[i - 1], boxes[i], o.gap))
  }

  function RightEdge(b: Box): real {
    b.left + b.width
  }

  ghost function Sum(ratios: seq<real>, start: nat, end: nat): real
    requires start <= end <= |ratios|
  {
    if start == end then 0.0 else Sum(ratios, start, end - 1) + ratios[end - 1]
  }

  lemma {:induction false} SumPositive(ratios: seq<real>, start: nat, end: nat)
    requires start < end <= |ratios| && forall i :: 0 <= i < |ratios| ==> ratios[i] > 0.0
    ensures Sum(ratios, start, end) >= ratios[end - 1] > 0.0
  {
    if start < end - 1 {
      SumPositive(ratios, start, end - 1);
    }
  }

  /** Where the boxes of a row end: the ratios at its height, and the gaps between. */
  lemma {:induction false} RowWidth(ratios: seq<real>, o: Options, boxes: seq<Box>, start: nat, end: nat, top: real, height: real, i: nat)
    requires IsRow(ratios, o, boxes, start, end, top, height) && start <= i < end
    ensures RightEdge(boxes[i]) == Sum(ratios, start, i + 1) * height + (i - start) as real * o.gap
  {
    assert Keeps(boxes[i], ratios[i], top, height);
    if i == start {
      assert Sum(ratios, start, start + 1) == ratios[start];
    } else {
      assert Follows(boxes[i - 1], boxes[i], o.gap);
      var n := i - 1;
      RowWidth(ratios, o, boxes, start, end, top, height, n);
      var sum, g := Sum(ratios, start, n + 1), (n - start) as real;
      assert Sum(ratios, start, i + 1) == sum + ratios[i];
      assert (i - start) as real == g + 1.0;
    }
  }

  /** At target height, photos `start..end` with their gaps stay strictly inside the container. */
  ghost predicate Fits(ratios: seq<real>, o: Options, start: nat, end: nat)
    requires start < end <= |ratios|
  {
    Sum(ratios, start, end) * o.targetRowHeight + (end - 1 - start) as real * o.gap < o.containerWidth
  }

  /** At `height` they span the container exactly. */
  ghost predicate Spans(ratios: seq<real>, o: Options, start: nat, end: nat, height: real)
    requires start < end <= |ratios|
  {
    Sum(ratios, start, end) * height + (end - 1 - start) as real * o.gap == o.containerWidth
  }

  datatype Row = Row(start: nat, end: nat, top: real, height: real)

  /** One row, greedily chosen: it could not have been closed earlier. */
  ghost predicate GoodRow(ratios: seq<real>, o: Options, boxes: seq<Box>, r: Row) {
    && IsRow(ratios, o, boxes, r.start, r.end, r.top, r.height)
    && 0.0 < r.height <= o.targetRowHeight
    && (forall m :: r.start < m < r.end ==> Fits(ratios, o, r.start, m))
  }

  /** A full row spans the container width exactly. */
  ghost predicate Full(o: Options, boxes: seq<Box>, r: Row)
    requires r.start < r.end <= |boxes|
  {
    RightEdge(boxes[r.end - 1]) == o.containerWidth
  }

  /** The rows follow one another without a break, from the top. */
  ghost predicate Stacked(o: Options, rows: seq<Row>) {
    && (rows != [] ==> rows[0].start == 0 && rows[0].top == 0.0)
    && (forall k :: 0 < k < |rows| ==>
          rows[k].start == rows[k - 1].end && rows[k].top == rows[k - 1].top + rows[k - 1].height + o.gap)
  }

  function EndOf(rows: seq<Row>): nat {
    if rows == [] then 0 else rows[|rows| - 1].end
  }

  function NextTop(o: Options, rows: seq<Row>): real {
    if rows == [] then 0.0 else rows[|rows| - 1].top + rows[|rows| - 1].height + o.gap
  }

  ghost predicate GoodRows(ratios: seq<real>, o: Options, boxes: seq<Box>, rows: seq<Row>) {
    && Stacked(o, rows) && EndOf(rows) == |boxes|
    && (forall k :: 0 <= k < |rows| ==> GoodRow(ratios, o, boxes, rows[k]))
  }

  ghost predicate AllFull(o: Options, boxes: seq<Box>, rows: seq<Row>) {
    forall k :: 0 <= k < |rows| ==> rows[k].start < rows[k].end <= |boxes| && Full(o, boxes, rows[k])
  }

  lemma {:induction false} AddRow(ratios: seq<real>, o: Options, boxes: seq<Box>, more: seq<Box>, rows: seq<Row>, r: Row)
    requires GoodRows(ratios, o, boxes, rows)
    requires r.start == |boxes| && r.end == |boxes| + |more| && r.top == NextTop(o, rows)
    requires GoodRow(ratios, o, boxes + more, r)
    ensures GoodRows(ratios, o, boxes + more, rows + [r])
  {
    var all := rows + [r];
    forall k | 0 <= k < |all| ensures GoodRow(ratios, o, boxes + more, all[k]) {
      if k < |rows| {
        assert all[k] == rows[k];
      }
    }
  }

  // --- the algorithm ---

  /** `flushRow`: the boxes of photos `start..end` at one height. */
  method FlushRow(ratios: seq<real>, o: Options, ghost boxes: seq<Box>, start: nat, end: nat, top: real, height: real)
    returns (more: seq<Box>)
    requires start == |boxes| && start < end <= |ratios|
    ensures |more| == end - start && IsRow(ratios, o, boxes + more, start, end, top, height)
  {
    more := [];
    var left := 0.0;
    for index := start to end
      invariant |more| == index - start
      invariant left == if more == [] then 0.0 else RightEdge(more[|more| - 1]) + o.gap
      invariant more != [] ==> more[0].left == 0.0
      invariant forall i :: 0 <= i < |more| ==> Keeps(more[i], ratios[start + i], top, height)
      invariant forall i :: 0 < i < |more| ==> Follows(more[i - 1], more[i], o.gap)
    {
      var width := ratios[index] * height;
      more := more + [Box(top, left, width, height)];
      left := left + width + o.gap;
    }
    ghost var all := boxes + more;
    forall i | start <= i < end ensures Keeps(all[i], ratios[i], top, height) {
      assert all[i] == more[i - start] && Keeps(more[i - start], ratios[start + (i - start)], top, height);
    }
    forall i | start < i < end ensures Follows(all[i - 1], all[i], o.gap) {
      assert all[i] == more[i - start] && all[i - 1] == more[i - start - 1];
      assert Follows(more[i - start - 1], more[i - start], o.gap);
    }
  }

  /** A row that is closed has positive height: the row so far left more than a gap of room. */
  lemma {:induction false} RoomForOne(ratios: seq<real>, o: Options, start: nat, index: nat)
    requires Sensible(ratios, o) && start <= index < |ratios|
    requires start < index ==> Fits(ratios, o, start, index)
    ensures (index - start) as real * o.gap < o.containerWidth
  {
    if start < index {
      SumPositive(ratios, start, index);
      var sum, g, h := Sum(ratios, start, index), (index - 1 - start) as real, o.targetRowHeight;
      assert o.gap <= h * ratios[index - 1];
      assert h * ratios[index - 1] <= sum * h by { MulMonotone(ratios[index - 1], sum, h); }
      assert (index - start) as real == g + 1.0;
      assert (g + 1.0) * o.gap == g * o.gap + o.gap;
    }
  }

  lemma {:induction false} MulMonotone(a: real, b: real, h: real)
    requires a <= b && h > 0.0
    ensures h * a <= b * h
  {
  }

  /** Closes the row of photos `start..end` at `height`; it ends where its ratios and gaps say. */
  method CloseRow(ratios: seq<real>, o: Options, boxes: seq<Box>, ghost rows: seq<Row>, start: nat, end: nat, top: real, height: real)
    returns (boxes': seq<Box>, ghost row: Row)
    requires GoodRows(ratios, o, boxes, rows) && AllFull(o, boxes, rows)
    requires start == |boxes| && start < end <= |ratios| && top == NextTop(o, rows)
    requires 0.0 < height <= o.targetRowHeight && forall m :: start < m < end ==> Fits(ratios, o, start, m)
    ensures row == Row(start, end, top, height) && end == |boxes'|
    ensures GoodRows(ratios, o, boxes', rows + [row]) && AllFull(o, boxes', rows)
    ensures Spans(ratios, o, start, end, height) ==> Full(o, boxes', row)
    ensures Fits(ratios, o, start, end) && height == o.targetRowHeight ==> RightEdge(boxes'[end - 1]) < o.containerWidth
  {
    var more := FlushRow(ratios, o, boxes, start, end, top, height);
    boxes' := boxes + more;
    row := Row(start, end, top, height);
    RowClosed(ratios, o, boxes, more, rows, row);
    RowEdge(ratios, o, boxes', row);
  }

  lemma {:induction false} RowClosed(ratios: seq<real>, o: Options, boxes: seq<Box>, more: seq<Box>, rows: seq<Row>, r: Row)
    requires GoodRows(ratios, o, boxes, rows) && AllFull(o, boxes, rows)
    requires r.start == |boxes| && r.end == |boxes| + |more| && r.top == NextTop(o, rows)
    requires IsRow(ratios, o, boxes + more, r.start, r.end, r.top, r.height)
    requires 0.0 < r.height <= o.targetRowHeight && forall m :: r.start < m < r.end ==> Fits(ratios, o, r.start, m)
    ensures GoodRows(ratios, o, boxes + more, rows + [r]) && AllFull(o, boxes + more, rows)
  {
    assert GoodRow(ratios, o, boxes + more, r);
    AddRow(ratios, o, boxes, more, rows, r);
  }

  lemma {:induction false} RowEdge(ratios: seq<real>, o: Options, boxes: seq<Box>, r: Row)
    requires IsRow(ratios, o, boxes, r.start, r.end, r.top, r.height)
    ensures Spans(ratios, o, r.start, r.end, r.height) ==> Full(o, boxes, r)
    ensures Fits(ratios, o, r.start, r.end) && r.height == o.targetRowHeight ==> RightEdge(boxes[r.end - 1]) < o.containerWidth
  {
    RowWidth(ratios, o, boxes, r.start, r.end, r.top, r.height, r.end - 1);
  }

  /** `justifiedLayout`: one box per photo in order; every row but perhaps the last is full, the last
      is full or ends strictly inside at target height; the container ends where the last row does. */
  method Layout(ratios: seq<real>, o: Options) returns (r: Result, ghost rows: seq<Row>)
    requires Sensible(ratios, o)
    ensures |r.boxes| == |ratios| && GoodRows(ratios, o, r.boxes, rows)
    ensures rows == [] ==> ratios == [] && r.containerHeight == 0.0
    ensures rows != [] ==> AllFull(o, r.boxes, rows[..|rows| - 1])
    ensures rows != [] ==> ClosedOrPartial(o, r.boxes, rows[|rows| - 1])
    ensures rows != [] ==> r.containerHeight == rows[|rows| - 1].top + rows[|rows| - 1].height
  {
    var boxes: seq<Box> := [];
    rows := [];
    var top, rowStart, rowRatioSum := 0.0, 0, 0.0;
    for index := 0 to |ratios|
      invariant 0 <= rowStart <= index && rowStart == |boxes|
      invariant rowRatioSum == Sum(ratios, rowStart, index)
      invariant Built(ratios, o, boxes, rows, top)
      invariant forall m :: rowStart < m <= index ==> Fits(ratios, o, rowStart, m)
    {
      RowChoice(ratios, o, rowStart, index);
      rowRatioSum := rowRatioSum + ratios[index];
      var gaps := (index - rowStart) as real * o.gap;
      var rowHeight := (o.containerWidth - gaps) / rowRatioSum;
      if rowHeight <= o.targetRowHeight {
        ghost var row;
        boxes, row := CloseRow(ratios, o, boxes, rows, rowStart, index + 1, top, rowHeight);
        rows := rows + [row];
        top, rowStart, rowRatioSum := top + rowHeight + o.gap, index + 1, 0.0;
      }
    }
    boxes, top, rows := LastRow(ratios, o, boxes, rows, rowStart, top);
    TopsRise(ratios, o, boxes, rows);
    r := Result(boxes, if top - o.gap > 0.0 then top - o.gap else 0.0);
  }

  /** The photos left over make a last row at target height. */
  method LastRow(ratios: seq<real>, o: Options, boxes: seq<Box>, ghost rows: seq<Row>, rowStart: nat, top: real)
    returns (boxes': seq<Box>, top': real, ghost rows': seq<Row>)
    requires Sensible(ratios, o) && rowStart == |boxes| <= |ratios| && Built(ratios, o, boxes, rows, top)
    requires forall m :: rowStart < m <= |ratios| ==> Fits(ratios, o, rowStart, m)
    ensures |boxes'| == |ratios| && GoodRows(ratios, o, boxes', rows') && top' == NextTop(o, rows')
    ensures rows' == [] ==> ratios == []
    ensures rows' != [] ==> AllFull(o, boxes', rows'[..|rows'| - 1]) && ClosedOrPartial(o, boxes', rows'[|rows'| - 1])
  {
    boxes', top', rows' := boxes, top, rows;
    if rowStart < |ratios| {
      ghost var row;
      boxes', row := CloseRow(ratios, o, boxes, rows, rowStart, |ratios|, top, o.targetRowHeight);
      rows' := rows + [row];
      assert rows'[..|rows'| - 1] == rows;
      top' := top + o.targetRowHeight + o.gap;
    } else {
    }
  }

  /** The rows closed so far, all full, and where the next one goes. */
  ghost predicate Built(ratios: seq<real>, o: Options, boxes: seq<Box>, rows: seq<Row>, top: real) {
    GoodRows(ratios, o, boxes, rows) && AllFull(o, boxes, rows) && top == NextTop(o, rows)
  }

  /** Adding photo `index`: the row height is positive, and the row either closes at exactly the
      container width or still fits at target height. */
  lemma {:induction false} RowChoice(ratios: seq<real>, o: Options, start: nat, index: nat)
    requires Sensible(ratios, o) && start <= index < |ratios|
    requires start < index ==> Fits(ratios, o, start, index)
    ensures Sum(ratios, start, index + 1) > 0.0
    ensures var gaps := (index - start) as real * o.gap;
            var sum := Sum(ratios, start, index + 1);
            var height := (o.containerWidth - gaps) / sum;
            && height > 0.0 && Spans(ratios, o, start, index + 1, height)
            && (height > o.targetRowHeight ==> Fits(ratios, o, start, index + 1))
  {
    RoomForOne(ratios, o, start, index);
    SumPositive(ratios, start, index + 1);
  }

  ghost predicate ClosedOrPartial(o: Options, boxes: seq<Box>, r: Row) {
    && r.start < r.end <= |boxes|
    && (Full(o, boxes, r) || (r.height == o.targetRowHeight && RightEdge(boxes[r.end - 1]) < o.containerWidth))
  }

  lemma {:induction false} TopsRise(ratios: seq<real>, o: Options, boxes: seq<Box>, rows: seq<Row>)
    requires GoodRows(ratios, o, boxes, rows) && o.gap >= 0.0
    ensures forall k :: 0 <= k < |rows| ==> rows[k].top >= 0.0 && rows[k].height > 0.0
  {
    for k := 0 to |rows|
      invariant forall j :: 0 <= j < k ==> rows[j].top >= 0.0 && rows[j].height > 0.0
    {
      assert GoodRow(ratios, o, boxes, rows[k]);
      if k > 0 {
        assert rows[k].top == rows[k - 1].top + rows[k - 1].height + o.gap;
      }
    }
  }

  // --- no overlap ---

  /** Two boxes share no interior point. */
  predicate Apart(a: Box, b: Box) {
    RightEdge(a) <= b.left || RightEdge(b) <= a.left || a.top + a.height <= b.top || b.top + b.height <= a.top
  }

  /** Within a row, later boxes start behind the right edge of earlier ones. */
  lemma {:induction false} RowApart(ratios: seq<real>, o: Options, boxes: seq<Box>, r: Row, i: nat, j: nat)
    requires Sensible(ratios, o) && GoodRow(ratios, o, boxes, r) && r.start <= i < j < r.end
    ensures RightEdge(boxes[i]) <= boxes[j].left
    decreases j
  {
    assert Follows(boxes[j - 1], boxes[j], o.gap);
    if i < j - 1 {
      RowApart(ratios, o, boxes, r, i, j - 1);
      assert Keeps(boxes[j - 1], ratios[j - 1], r.top, r.height);
      assert ratios[j - 1] * r.height >= 0.0;
    }
  }

  /** Later rows lie below earlier ones. */
  lemma {:induction false} RowsBelow(ratios: seq<real>, o: Options, boxes: seq<Box>, rows: seq<Row>, k: nat, l: nat)
    requires GoodRows(ratios, o, boxes, rows) && o.gap >= 0.0 && k < l < |rows|
    ensures rows[k].top + rows[k].height <= rows[l].top
    decreases l
  {
    if k < l - 1 {
      RowsBelow(ratios, o, boxes, rows, k, l - 1);
      assert GoodRow(ratios, o, boxes, rows[l - 1]);
    }
  }

  lemma {:induction false} RowOf(ratios: seq<real>, o: Options, boxes: seq<Box>, rows: seq<Row>, n: nat, i: nat) returns (k: nat)
    requires GoodRows(ratios, o, boxes, rows) && n <= |rows| && i < (if n == 0 then 0 else rows[n - 1].end)
    ensures k < n && rows[k].start <= i < rows[k].end
    decreases n
  {
    if i >= rows[n - 1].start {
      k := n - 1;
    } else {
      k := RowOf(ratios, o, boxes, rows, n - 1, i);
    }
  }

  /** No two boxes of a layout overlap. */
  lemma {:induction false} BoxesApart(ratios: seq<real>, o: Options, boxes: seq<Box>, rows: seq<Row>, i: nat, j: nat)
    requires Sensible(ratios, o) && GoodRows(ratios, o, boxes, rows) && i < j < |boxes|
    ensures Apart(boxes[i], boxes[j])
  {
    var k := RowOf(ratios, o, boxes, rows, |rows|, i);
    var l := RowOf(ratios, o, boxes, rows, |rows|, j);
    assert GoodRow(ratios, o, boxes, rows[k]) && GoodRow(ratios, o, boxes, rows[l]);
    assert Keeps(boxes[i], ratios[i], rows[k].top, rows[k].height) && Keeps(boxes[j], ratios[j], rows[l].top, rows[l].height);
    if k == l {
      RowApart(ratios, o, boxes, rows[k], i, j);
    } else if k < l {
      RowsBelow(ratios, o, boxes, rows, k, l);
    } else {
      RowsBelow(ratios, o, boxes, rows, l, k);
    }
  }

  /** No box sticks out of the container. */
  lemma {:induction false} BoxInside(ratios: seq<real>, o: Options, boxes: seq<Box>, rows: seq<Row>, k: nat, i: nat)
    requires Sensible(ratios, o) && GoodRows(ratios, o, boxes, rows) && k < |rows| && rows[k].start <= i < rows[k].end
    requires ClosedOrPartial(o, boxes, rows[k])
    ensures 0.0 <= boxes[i].left && RightEdge(boxes[i]) <= o.containerWidth
    // the container ends where the last row does
    ensures 0.0 <= boxes[i].top && boxes[i].top + boxes[i].height <= rows[|rows| - 1].top + rows[|rows| - 1].height
  {
    var r := rows[k];
    assert GoodRow(ratios, o, boxes, r);
    BoxVertical(ratios, o, boxes, rows, k, i);
    if r.start < i {
      RowApart(ratios, o, boxes, r, r.start, i);
      assert Keeps(boxes[r.start], ratios[r.start], r.top, r.height) && ratios[r.start] * r.height >= 0.0;
    }
    if i < r.end - 1 {
      RowApart(ratios, o, boxes, r, i, r.end - 1);
      assert Keeps(boxes[r.end - 1], ratios[r.end - 1], r.top, r.height) && ratios[r.end - 1] * r.height >= 0.0;
    }
  }

  lemma {:induction false} BoxVertical(ratios: seq<real>, o: Options, boxes: seq<Box>, rows: seq<Row>, k: nat, i: nat)
    requires GoodRows(ratios, o, boxes, rows) && o.gap >= 0.0 && k < |rows| && rows[k].start <= i < rows[k].end <= |boxes|
    ensures 0.0 <= boxes[i].top && boxes[i].top + boxes[i].height <= rows[|rows| - 1].top + rows[|rows| - 1].height
  {
    assert GoodRow(ratios, o, boxes, rows[k]);
    assert Keeps(boxes[i], ratios[i], rows[k].top, rows[k].height);
    TopsRise(ratios, o, boxes, rows);
    if k < |rows| - 1 {
      RowsBelow(ratios, o, boxes, rows, k, |rows| - 1);
    }
  }
}
