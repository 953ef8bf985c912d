// The shape of what `dump_to_file` writes (encoding.dfy), row by row: the
// markers of every row, the run-length pieces each row turns into, and the
// markers those pieces stand for. These are the facts the round trip
// through the parser (round_trip.dfy) rests on.

module EncodingFacts {
  import opened Text
  import opened Cursor
  import opened Grids
  import opened Encoding

  /** The markers of one row: `o` for a live cell, `b` for a dead one. */
  function RowMarkers(row: seq<bool>): (ms: seq<char>)
    ensures |ms| == |row|
    ensures forall j :: 0 <= j < |row| ==> ms[j] == if row[j] then 'o' else 'b'
  {
    seq(|row|, j requires 0 <= j < |row| => if row[j] then 'o' else 'b')
  }

  /** `$` before every row but the first. */
  function Separator(r: nat): seq<char> {
    if r > 0 then ['$'] else []
  }

  /** The markers of the first `r` rows, each after its separator. */
  function RowsMarkers(cells: seq<seq<bool>>, r: nat): seq<char>
    requires r <= |cells|
  {
    if r == 0 then [] else RowsMarkers(cells, r - 1) + Separator(r - 1) + RowMarkers(cells[r - 1])
  }

  /** Row `r` of a board `height` rows high starts at index `r * width`
      and ends within the board. */
  lemma RowFits(r: nat, height: nat, width: nat)
    requires r < height
    ensures (r + 1) * width == r * width + width
    ensures r * width + width <= height * width
  {
    MulMonotone(r + 1, height, width);
  }

  /** The cell in column `c - 1` of row `r`, whose first cell has index
      `b`: its marker, after a `$` when it starts a row other than the
      first. */
  lemma CellStep(cells: seq<seq<bool>>, height: nat, width: nat, r: nat, b: nat, c: nat)
    requires WellShaped(cells, height, width) && width > 0 && r < height && 0 < c <= width
    requires b == r * width && b + width <= height * width
    ensures MarkersUpTo(cells, height, width, b + c) ==
      MarkersUpTo(cells, height, width, b + c - 1) +
      (if c == 1 then Separator(r) else []) + [RowMarkers(cells[r])[c - 1]]
  {
    var n := b + c - 1;
    MarkersUpToStep(cells, height, width, n);
    AdvanceReaches(r, c - 1, width);
    assert r * width + (c - 1) == n;
    var p := Advance(Begin(), n, width);
    assert p == Position(r, c - 1);
    assert CellMarker(cells, height, width, p) == RowMarkers(cells[r])[c - 1];
    assert (if p != Begin() && p.col == 0 then ['$'] else []) == (if c == 1 then Separator(r) else []);
  }

  /** The cursor loop within row `r`, whose first cell has index `b`:
      after the first `c` cells of the row, the markers are those of the
      rows before, the separator, and the row's first `c` markers. */
  lemma {:induction false} MarkersWithinRow(cells: seq<seq<bool>>, height: nat, width: nat, r: nat, b: nat, c: nat)
    requires WellShaped(cells, height, width) && width > 0 && r < height && 0 < c <= width
    requires b == r * width && b + width <= height * width
    requires MarkersUpTo(cells, height, width, b) == RowsMarkers(cells, r)
    ensures MarkersUpTo(cells, height, width, b + c) ==
      RowsMarkers(cells, r) + Separator(r) + RowMarkers(cells[r])[..c]
  {
    CellStep(cells, height, width, r, b, c);
    var rm := RowMarkers(cells[r]);
    var before := RowsMarkers(cells, r) + Separator(r);
    var m1 := if c == 1 then before else MarkersUpTo(cells, height, width, b + c - 1);
    if c > 1 {
      MarkersWithinRow(cells, height, width, r, b, c - 1);
    }
    ExtendPrefix(MarkersUpTo(cells, height, width, b + c), m1, before, rm, c);
  }

  /** A prefix of `s` after `a`, one element longer. */
  lemma ExtendPrefix<T>(m: seq<T>, m1: seq<T>, a: seq<T>, s: seq<T>, k: nat)
    requires 0 < k <= |s| && m1 == a + s[..k - 1] && m == m1 + [s[k - 1]]
    ensures m == a + s[..k]
  {
    assert s[..k] == s[..k - 1] + [s[k - 1]];
  }

  /** The cursor loop over all of row `r`, whose first cell has index `b`. */
  lemma RowCompleted(cells: seq<seq<bool>>, height: nat, width: nat, r: nat, b: nat)
    requires WellShaped(cells, height, width) && width > 0 && r < height
    requires b == r * width && b + width <= height * width
    requires MarkersUpTo(cells, height, width, b) == RowsMarkers(cells, r)
    ensures MarkersUpTo(cells, height, width, b + width) == RowsMarkers(cells, r + 1)
  {
    MarkersWithinRow(cells, height, width, r, b, width);
    assert RowMarkers(cells[r])[..width] == RowMarkers(cells[r]);
  }

  /** The markers of the first `r` whole rows. */
  lemma {:induction false} MarkersByRows(cells: seq<seq<bool>>, height: nat, width: nat, r: nat)
    requires WellShaped(cells, height, width) && width > 0 && r <= height
    ensures r * width <= height * width
    ensures MarkersUpTo(cells, height, width, r * width) == RowsMarkers(cells, r)
  {
    if r > 0 {
      RowFits(r - 1, height, width);
      MarkersByRows(cells, height, width, r - 1);
      RowCompleted(cells, height, width, r - 1, (r - 1) * width);
    } else {
      MulMonotone(0, height, width);
    }
  }

  /** What a run that is pending can be: nothing, or a positive count of
      `o` or `b`. */
  predicate PendingShape(p: Pending) {
    (p.counter == 0 && p.previousChar == '\0') ||
    (p.counter > 0 && (p.previousChar == 'o' || p.previousChar == 'b'))
  }

  /** `out_marker` keeps the pending run in shape, whatever marker other
      than `\0` it is handed. */
  lemma {:induction false} PendingInShape(ms: seq<char>)
    requires '\0' !in ms
    ensures PendingShape(RunLength(ms).1)
  {
    if ms != [] {
      assert ms[..|ms| - 1] + [ms[|ms| - 1]] == ms;
      PendingInShape(ms[..|ms| - 1]);
    }
  }

  /** Encoding the markers `b` after markers `a` that left nothing
      pending: the pieces of `a`, then those `b` would give alone. */
  lemma {:induction false} RunLengthAppend(a: seq<char>, b: seq<char>)
    requires RunLength(a).1 == NoRun
    ensures RunLength(a + b) == (RunLength(a).0 + RunLength(b).0, RunLength(b).1)
  {
    if b == [] {
      assert a + b == a;
      assert RunLength(a).0 + RunLength(b).0 == RunLength(a).0;
    } else {
      RunLengthAppend(a, b[..|b| - 1]);
      AppendStep(a, b[..|b| - 1], b[|b| - 1]);
      assert b[..|b| - 1] + [b[|b| - 1]] == b;
    }
  }

  /** The step of `RunLengthAppend`: one more marker after `b`. */
  lemma AppendStep(a: seq<char>, b: seq<char>, c: char)
    requires RunLength(a + b) == (RunLength(a).0 + RunLength(b).0, RunLength(b).1)
    ensures RunLength(a + (b + [c])) == (RunLength(a).0 + RunLength(b + [c]).0, RunLength(b + [c]).1)
  {
    assert a + (b + [c]) == (a + b) + [c];
    RunLengthSnoc(a + b, c);
    RunLengthSnoc(b, c);
    Associate(RunLength(a).0, RunLength(b).0, MarkerStep(RunLength(b).1, c).0);
  }

  lemma Associate<T>(x: seq<T>, y: seq<T>, z: seq<T>)
    ensures (x + y) + z == x + (y + z)
  {
  }

  /** The pieces of a row once its last run has been written. */
  function Closed(row: seq<bool>): seq<Piece> {
    var (ps, p) := RunLength(RowMarkers(row));
    ps + Flush(p)
  }

  /** The marker after a row (`$` or `!`) writes the row's last run, then
      itself, and leaves nothing pending. */
  lemma RowThenMark(row: seq<bool>, d: char)
    requires d == '$' || d == '!'
    ensures RunLength(RowMarkers(row) + [d]) == (Closed(row) + [Chr(d)], NoRun)
  {
    var ms := RowMarkers(row);
    assert '\0' !in ms;
    PendingInShape(ms);
    RunLengthSnoc(ms, d);
    var (ps, p) := RunLength(ms);
    assert MarkerStep(p, d) == (Flush(p) + [Chr(d)], NoRun);
    assert ps + (Flush(p) + [Chr(d)]) == (ps + Flush(p)) + [Chr(d)];
  }

  /** Concatenation regrouped around its middle. */
  lemma Regroup<T>(a: seq<T>, b: seq<T>, c: seq<T>, d: seq<T>)
    ensures a + b + c + d == (a + b) + (c + d)
  {
  }

  /** The pieces of the first `r` rows (`r` at least 1), each row closed,
      with `$` between rows. */
  function ClosedRows(cells: seq<seq<bool>>, r: nat): seq<Piece>
    requires 0 < r <= |cells|
  {
    if r == 1 then Closed(cells[0]) else ClosedRows(cells, r - 1) + [Chr('$')] + Closed(cells[r - 1])
  }

  /** Up to the marker after row `r - 1`, the encoder has written every
      row closed and that marker, and nothing is pending. */
  lemma {:induction false} RowsThenMark(cells: seq<seq<bool>>, r: nat, d: char)
    requires 0 < r <= |cells| && (d == '$' || d == '!')
    ensures RunLength(RowsMarkers(cells, r) + [d]) == (ClosedRows(cells, r) + [Chr(d)], NoRun)
  {
    if r == 1 {
      assert RowsMarkers(cells, 1) == RowMarkers(cells[0]);
      RowThenMark(cells[0], d);
    } else {
      RowsThenMark(cells, r - 1, '$');
      var a := RowsMarkers(cells, r - 1) + ['$'];
      var b := RowMarkers(cells[r - 1]) + [d];
      assert Separator(r - 1) == ['$'];
      Regroup(RowsMarkers(cells, r - 1), ['$'], RowMarkers(cells[r - 1]), [d]);
      RunLengthAppend(a, b);
      RowThenMark(cells[r - 1], d);
      Regroup(ClosedRows(cells, r - 1), [Chr('$')], Closed(cells[r - 1]), [Chr(d)]);
    }
  }

  /** The rows from `r` on, each after a `$`: the order in which the
      parser meets them. */
  function FromRow(cells: seq<seq<bool>>, r: nat): seq<Piece>
    requires r <= |cells|
    decreases |cells| - r
  {
    if r == |cells| then [] else [Chr('$')] + Closed(cells[r]) + FromRow(cells, r + 1)
  }

  /** Moving a `$` and a row from the front of the rows from `r` on to the
      end of the rows up to `r`. */
  lemma MoveRow(a: seq<Piece>, c: seq<Piece>, f: seq<Piece>)
    ensures (a + [Chr('$')] + c) + f == a + ([Chr('$')] + c + f)
  {
  }

  /** The rows up to `r` and the rows from `r` on make up the same pieces
      wherever the cut is. */
  lemma {:induction false} RowsSplit(cells: seq<seq<bool>>, r: nat)
    requires 0 < r <= |cells|
    ensures ClosedRows(cells, r) + FromRow(cells, r) == Closed(cells[0]) + FromRow(cells, 1)
  {
    if r > 1 {
      RowsSplit(cells, r - 1);
      MoveRow(ClosedRows(cells, r - 1), Closed(cells[r - 1]), FromRow(cells, r));
    }
  }

  /** Every write of the body, row by row: the first row, then each later
      row after a `$`, then `!`. */
  lemma BodyPiecesByRows(cells: seq<seq<bool>>, height: nat, width: nat)
    requires WellShaped(cells, height, width) && height > 0 && width > 0
    ensures BodyPieces(cells, height, width) == Closed(cells[0]) + FromRow(cells, 1) + [Chr('!')]
  {
    MarkersByRows(cells, height, width, height);
    RowsThenMark(cells, height, '!');
    RowsSplit(cells, height);
    assert FromRow(cells, height) == [];
  }

  /** A piece of a run: a single `o` or `b`, or a count in decimal followed
      by `o` or `b`. */
  predicate RunPiece(p: Piece) {
    match p
    case Chr(c) => c == 'o' || c == 'b'
    case Str(s) => |s| >= 2 && AllDigits(s[..|s| - 1]) && (s[|s| - 1] == 'o' || s[|s| - 1] == 'b')
  }

  /** How many cells a run piece stands for, and the marker of them. */
  function RunCount(p: Piece): nat
    requires RunPiece(p)
  {
    match p
    case Chr(_) => 1
    case Str(s) => DigitsValue(s[..|s| - 1])
  }

  function RunMarker(p: Piece): char
    requires RunPiece(p)
  {
    match p
    case Chr(c) => c
    case Str(s) => s[|s| - 1]
  }

  /** `n` copies of the marker `c`. */
  function Repeat(c: char, n: nat): (s: seq<char>)
    ensures |s| == n && forall i :: 0 <= i < n ==> s[i] == c
  {
    seq(n, _ => c)
  }

  /** The markers the run pieces `ps` stand for. */
  function Expand(ps: seq<Piece>): seq<char>
    requires forall i :: 0 <= i < |ps| ==> RunPiece(ps[i])
  {
    if ps == [] then [] else Repeat(RunMarker(ps[0]), RunCount(ps[0])) + Expand(ps[1..])
  }

  lemma {:induction false} ExpandAppend(a: seq<Piece>, b: seq<Piece>)
    requires forall i :: 0 <= i < |a| ==> RunPiece(a[i])
    requires forall i :: 0 <= i < |b| ==> RunPiece(b[i])
    ensures forall i :: 0 <= i < |a + b| ==> RunPiece((a + b)[i])
    ensures Expand(a + b) == Expand(a) + Expand(b)
  {
    if a != [] {
      assert (a + b)[1..] == a[1..] + b;
      ExpandAppend(a[1..], b);
    } else {
      assert a + b == b;
    }
  }

  /** The markers of a pending run. */
  function PendingMarkers(p: Pending): seq<char> {
    Repeat(p.previousChar, p.counter)
  }

  /** Writing a pending run in shape gives run pieces for exactly its
      markers. */
  lemma FlushExpands(p: Pending)
    requires PendingShape(p)
    ensures forall i :: 0 <= i < |Flush(p)| ==> RunPiece(Flush(p)[i])
    ensures Expand(Flush(p)) == PendingMarkers(p)
  {
    if p.counter > 1 {
      var s := NatToDecimal(p.counter) + [p.previousChar];
      assert s[..|s| - 1] == NatToDecimal(p.counter);
      assert Expand(Flush(p)) == Repeat(p.previousChar, p.counter) + Expand([]);
    } else if p.counter == 1 {
      assert Expand(Flush(p)) == [p.previousChar] + Expand([]);
    }
  }

  /** On markers that are all `o` or `b`, the pieces written so far are
      run pieces, and they and the pending run stand for the markers. */
  lemma {:induction false} RunsExpand(ms: seq<char>)
    requires forall i :: 0 <= i < |ms| ==> ms[i] == 'o' || ms[i] == 'b'
    ensures var (ps, p) := RunLength(ms);
      (forall i :: 0 <= i < |ps| ==> RunPiece(ps[i])) &&
      Expand(ps) + PendingMarkers(p) == ms
  {
    if ms != [] {
      var init := ms[..|ms| - 1];
      var c := ms[|ms| - 1];
      assert init + [c] == ms;
      RunsExpand(init);
      assert '\0' !in init;
      PendingInShape(init);
      var (ps, p) := RunLength(init);
      var (more, p') := MarkerStep(p, c);
      assert RunLength(ms) == (ps + more, p');
      if p.previousChar == c {
        assert more == [];
        assert ps + more == ps;
        assert PendingMarkers(p') == PendingMarkers(p) + [c];
      } else {
        FlushExpands(p);
        ExpandAppend(ps, Flush(p));
        assert more == Flush(p);
        assert PendingMarkers(p') == [c];
      }
    }
  }

  /** A closed row is made of run pieces that stand for exactly its
      markers. */
  lemma ClosedExpands(row: seq<bool>)
    ensures forall i :: 0 <= i < |Closed(row)| ==> RunPiece(Closed(row)[i])
    ensures Expand(Closed(row)) == RowMarkers(row)
  {
    var ms := RowMarkers(row);
    RunsExpand(ms);
    assert '\0' !in ms;
    PendingInShape(ms);
    var (ps, p) := RunLength(ms);
    FlushExpands(p);
    ExpandAppend(ps, Flush(p));
  }

  /** Run pieces that could not be written shorter: neighbours have
      different markers, so no two runs could have been merged, and a
      counted piece stands for at least two cells (a single cell is
      always the bare marker). */
  predicate Maximal(ps: seq<Piece>) {
    (forall i :: 0 <= i < |ps| ==> RunPiece(ps[i])) &&
    (forall i :: 0 <= i < |ps| - 1 ==> RunMarker(ps[i]) != RunMarker(ps[i + 1])) &&
    (forall i :: 0 <= i < |ps| && ps[i].Str? ==> RunCount(ps[i]) >= 2)
  }

  /** A pending run of at least one cell is written as one piece of its
      marker and count. */
  lemma FlushPiece(p: Pending)
    requires PendingShape(p) && p.counter > 0
    ensures |Flush(p)| == 1 && RunPiece(Flush(p)[0])
    ensures RunMarker(Flush(p)[0]) == p.previousChar && RunCount(Flush(p)[0]) == p.counter
  {
    if p.counter > 1 {
      var s := NatToDecimal(p.counter) + [p.previousChar];
      assert s[..|s| - 1] == NatToDecimal(p.counter);
    }
  }

  /** Appending one piece whose marker differs from the last keeps the
      pieces maximal. */
  lemma MaximalSnoc(ps: seq<Piece>, q: Piece)
    requires Maximal(ps) && RunPiece(q) && (q.Str? ==> RunCount(q) >= 2)
    requires ps != [] ==> RunMarker(ps[|ps| - 1]) != RunMarker(q)
    ensures Maximal(ps + [q])
  {
    var qs := ps + [q];
    assert forall i :: 0 <= i < |ps| ==> qs[i] == ps[i];
  }

  /** On markers that are all `o` or `b`: the pieces written so far are
      maximal, a run is pending, and it has a different marker than the
      last piece written. */
  lemma {:induction false} RunsMaximal(ms: seq<char>)
    requires ms != [] && forall i :: 0 <= i < |ms| ==> ms[i] == 'o' || ms[i] == 'b'
    ensures var (ps, p) := RunLength(ms);
      Maximal(ps) && p.counter > 0 && PendingShape(p) &&
      (ps != [] ==> RunMarker(ps[|ps| - 1]) != p.previousChar)
  {
    var init := ms[..|ms| - 1];
    var c := ms[|ms| - 1];
    assert init + [c] == ms;
    RunLengthSnoc(init, c);
    if init == [] {
      assert RunLength(init) == ([], NoRun);
    } else {
      RunsMaximal(init);
      MaximalStep(RunLength(init).0, RunLength(init).1, c);
    }
  }

  /** One more `o` or `b` after a pending run that differs from the last
      piece written: the same holds afterwards. */
  lemma MaximalStep(ps: seq<Piece>, p: Pending, c: char)
    requires Maximal(ps) && p.counter > 0 && PendingShape(p) && (c == 'o' || c == 'b')
    requires ps != [] ==> RunMarker(ps[|ps| - 1]) != p.previousChar
    ensures var (more, p') := MarkerStep(p, c);
      Maximal(ps + more) && p'.counter > 0 && PendingShape(p') &&
      (ps + more != [] ==> RunMarker((ps + more)[|ps + more| - 1]) != p'.previousChar)
  {
    if p.previousChar == c {
      assert ps + [] == ps;
    } else {
      FlushPiece(p);
      MaximalSnoc(ps, Flush(p)[0]);
      assert Flush(p) == [Flush(p)[0]];
    }
  }

  /** The pieces of a closed row are maximal: the encoding never writes
      two runs of the same marker side by side, nor a count of 1. */
  lemma ClosedMaximal(row: seq<bool>)
    ensures Maximal(Closed(row))
  {
    var ms := RowMarkers(row);
    if row == [] {
      assert ms == [];
      assert Closed(row) == [];
    } else {
      RunsMaximal(ms);
      var (ps, p) := RunLength(ms);
      FlushPiece(p);
      MaximalSnoc(ps, Flush(p)[0]);
      assert Closed(row) == ps + [Flush(p)[0]];
    }
  }
}
