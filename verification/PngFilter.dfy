/** Undoing the scanline filters of a PNG image: sections 9.2 and 9.4 of the W3C PNG Specification. */
module PngFilter {
  import opened Wrappers
  import opened Text
  import opened Bytes

  function Abs(x: int): nat
  {
    if x < 0 then -x else x
  }

  /** The neighbour nearest to a + b - c; ties go to a, then to b. */
  function Paeth(a: byte, b: byte, c: byte): (r: byte)
    ensures r == a || r == b || r == c
    ensures forall n :: n in [a, b, c] ==> Abs(a + b - c - r) <= Abs(a + b - c - n)
    ensures Abs(b - c) <= Abs(a - c) && Abs(b - c) <= Abs(a + b - 2 * c) ==> r == a
    ensures r == c && c != a && c != b ==> Abs(a + b - 2 * c) < Abs(b - c) && Abs(a + b - 2 * c) < Abs(a - c)
  {
    var p := a + b - c;
    var pa, pb, pc := Abs(p - a), Abs(p - b), Abs(p - c);
    if pa <= pb && pa <= pc then a
    else if pb <= pc then b
    else c
  }

  /** What filter type `ftype` predicts from the bytes to the left, above, and above left. */
  function Predict(ftype: byte, left: byte, up: byte, upLeft: byte): byte
  {
    if ftype == 1 then left
    else if ftype == 2 then up
    else if ftype == 3 then (left as int + up as int) / 2
    else if ftype == 4 then Paeth(left, up, upLeft)
    else 0
  }

  /** (x + y) & 255 */
  function Add(x: byte, y: byte): byte
  {
    var sum := x as int + y as int;
    if sum < 256 then sum else sum - 256
  }

  /** (x - y) & 255 */
  function Subtract(x: byte, y: byte): byte
  {
    var difference := x as int - y as int;
    if difference >= 0 then difference else difference + 256
  }

  /** The byte one pixel before position i, which is 0 in the first pixel. */
  function Tap(row: seq<byte>, i: nat, bpp: nat): byte
    requires bpp > 0 && i <= |row|
  {
    if i >= bpp then row[i - bpp] else 0
  }

  /** The first n bytes of the row whose filtered form is `line`. */
  function Unfiltered(ftype: byte, line: seq<byte>, prev: seq<byte>, bpp: nat, n: nat): (row: seq<byte>)
    requires bpp > 0 && n <= |line| <= |prev|
    ensures |row| == n
  {
    if n == 0 then []
    else
      var row := Unfiltered(ftype, line, prev, bpp, n - 1);
      var i := n - 1;
      row + [Add(line[i], Predict(ftype, Tap(row, i, bpp), prev[i], Tap(prev, i, bpp)))]
  }

  /** The filtered form of `row`: what an encoder stores. */
  function Filtered(ftype: byte, row: seq<byte>, prev: seq<byte>, bpp: nat): (line: seq<byte>)
    requires bpp > 0 && |row| <= |prev|
    ensures |line| == |row|
    ensures forall i :: 0 <= i < |row| ==>
              line[i] == Subtract(row[i], Predict(ftype, Tap(row, i, bpp), prev[i], Tap(prev, i, bpp)))
  {
    seq(|row|, i requires 0 <= i < |row| =>
      Subtract(row[i], Predict(ftype, Tap(row, i, bpp), prev[i], Tap(prev, i, bpp))))
  }

  /** Both are the sums modulo 256 of the PNG Specification. */
  lemma {:induction false} SumsAreMod256(x: byte, y: byte)
    ensures Add(x, y) == (x as int + y as int) % 256
    ensures Subtract(x, y) == (x as int - y as int) % 256
  {
  }

  lemma {:induction false} AddUndoesSubtract(x: byte, y: byte)
    ensures Add(Subtract(x, y), y) == x
    ensures Subtract(Add(x, y), y) == x
  {
  }

  /** Unfiltering undoes filtering, byte by byte, for every filter type. */
  lemma {:induction false} UnfilterUndoesFilter(ftype: byte, row: seq<byte>, prev: seq<byte>, bpp: nat, n: nat)
    requires bpp > 0 && n <= |row| <= |prev|
    ensures Unfiltered(ftype, Filtered(ftype, row, prev, bpp), prev, bpp, n) == row[..n]
  {
    if n > 0 {
      var i := n - 1;
      UnfilterUndoesFilter(ftype, row, prev, bpp, i);
      assert Tap(row[..i], i, bpp) == Tap(row, i, bpp);
      AddUndoesSubtract(row[i], Predict(ftype, Tap(row, i, bpp), prev[i], Tap(prev, i, bpp)));
    }
  }

  lemma {:induction false} UnfilteredPrefix(ftype: byte, line: seq<byte>, prev: seq<byte>, bpp: nat, n: nat, m: nat)
    requires bpp > 0 && n <= m <= |line| <= |prev|
    ensures Unfiltered(ftype, line, prev, bpp, m)[..n] == Unfiltered(ftype, line, prev, bpp, n)
    decreases m
  {
    if n < m {
      UnfilteredPrefix(ftype, line, prev, bpp, n, m - 1);
      var row := Unfiltered(ftype, line, prev, bpp, m - 1);
      assert Unfiltered(ftype, line, prev, bpp, m)[..n] == row[..n];
    }
  }

  /** Filtering undoes unfiltering, so the filtered form of a row is unique. */
  lemma {:induction false} FilterUndoesUnfilter(ftype: byte, line: seq<byte>, prev: seq<byte>, bpp: nat)
    requires bpp > 0 && |line| <= |prev|
    ensures Filtered(ftype, Unfiltered(ftype, line, prev, bpp, |line|), prev, bpp) == line
  {
    var row := Unfiltered(ftype, line, prev, bpp, |line|);
    forall i | 0 <= i < |line| ensures Filtered(ftype, row, prev, bpp)[i] == line[i] {
      var before := Unfiltered(ftype, line, prev, bpp, i);
      UnfilteredPrefix(ftype, line, prev, bpp, i + 1, |line|);
      UnfilteredPrefix(ftype, line, prev, bpp, i, |line|);
      assert row[i] == row[..i + 1][i] == Unfiltered(ftype, line, prev, bpp, i + 1)[i];
      assert row[..i] == before;
      assert Tap(before, i, bpp) == Tap(row, i, bpp);
      AddUndoesSubtract(line[i], Predict(ftype, Tap(row, i, bpp), prev[i], Tap(prev, i, bpp)));
    }
  }

  // ---------- one row, in place ----------

  /** In the first pixel the Sub filter changes nothing. */
  lemma {:induction false} SubKeepsFirstPixel(line: seq<byte>, prev: seq<byte>, bpp: nat, n: nat)
    requires bpp > 0 && n <= |line| <= |prev| && n <= bpp
    ensures Unfiltered(1, line, prev, bpp, n) == line[..n]
  {
    if n > 0 {
      SubKeepsFirstPixel(line, prev, bpp, n - 1);
    }
  }

  lemma {:induction false} UnknownKeepsRow(ftype: byte, line: seq<byte>, prev: seq<byte>, bpp: nat, n: nat)
    requires bpp > 0 && n <= |line| <= |prev| && (ftype == 0 || ftype > 4)
    ensures Unfiltered(ftype, line, prev, bpp, n) == line[..n]
  {
    if n > 0 {
      UnknownKeepsRow(ftype, line, prev, bpp, n - 1);
    }
  }

  /** Whether the loop of this filter indexes past the end of a row that was cut short. */
  predicate ReadsPastEnd(ftype: byte, len: nat, stride: nat, bpp: nat)
  {
    len < stride && (2 <= ftype <= 4 || (ftype == 1 && bpp < stride))
  }

  /** The loop of filter type 1, which starts at the second pixel. */
  method UnfilterSub(row: array<byte>, ghost prev: seq<byte>, bpp: nat, stride: nat) returns (ok: bool)
    requires bpp > 0 && row.Length <= stride == |prev|
    modifies row
    ensures ok == !ReadsPastEnd(1, row.Length, stride, bpp)
    ensures ok ==> row[..] == Unfiltered(1, old(row[..]), prev, bpp, row.Length)
  {
    ghost var line := row[..];
    SubKeepsFirstPixel(line, prev, bpp, Min(bpp, row.Length));
    var i := bpp;
    while i < stride
      invariant bpp <= i && (i <= row.Length || i == bpp)
      invariant i <= row.Length ==> row[..i] == Unfiltered(1, line, prev, bpp, i) && row[i..] == line[i..]
      invariant i > row.Length ==> row[..] == line
    {
      if i >= row.Length { return false; }
      row[i] := Add(row[i], row[i - bpp]);
      i := i + 1;
    }
    ok := true;
  }

  method UnfilterUp(row: array<byte>, prev: array<byte>, ghost bpp: nat, stride: nat) returns (ok: bool)
    requires row != prev && bpp > 0 && row.Length <= stride == prev.Length
    modifies row
    ensures ok == !ReadsPastEnd(2, row.Length, stride, bpp)
    ensures ok ==> row[..] == Unfiltered(2, old(row[..]), prev[..], bpp, row.Length)
  {
    ghost var line, up := row[..], prev[..];
    var i := 0;
    while i < stride
      invariant i <= row.Length
      invariant row[..i] == Unfiltered(2, line, up, bpp, i) && row[i..] == line[i..]
    {
      if i >= row.Length { return false; }
      row[i] := Add(row[i], prev[i]);
      i := i + 1;
    }
    ok := true;
  }

  method UnfilterAverage(row: array<byte>, prev: array<byte>, bpp: nat, stride: nat) returns (ok: bool)
    requires row != prev && bpp > 0 && row.Length <= stride == prev.Length
    modifies row
    ensures ok == !ReadsPastEnd(3, row.Length, stride, bpp)
    ensures ok ==> row[..] == Unfiltered(3, old(row[..]), prev[..], bpp, row.Length)
  {
    ghost var line, up := row[..], prev[..];
    var i := 0;
    while i < stride
      invariant i <= row.Length
      invariant row[..i] == Unfiltered(3, line, up, bpp, i) && row[i..] == line[i..]
    {
      if i >= row.Length { return false; }
      var left := if i >= bpp then row[i - bpp] else 0;
      row[i] := Add(row[i], (left as int + prev[i] as int) / 2);
      i := i + 1;
    }
    ok := true;
  }

  method UnfilterPaeth(row: array<byte>, prev: array<byte>, bpp: nat, stride: nat) returns (ok: bool)
    requires row != prev && bpp > 0 && row.Length <= stride == prev.Length
    modifies row
    ensures ok == !ReadsPastEnd(4, row.Length, stride, bpp)
    ensures ok ==> row[..] == Unfiltered(4, old(row[..]), prev[..], bpp, row.Length)
  {
    ghost var line, up := row[..], prev[..];
    var i := 0;
    while i < stride
      invariant i <= row.Length
      invariant row[..i] == Unfiltered(4, line, up, bpp, i) && row[i..] == line[i..]
    {
      if i >= row.Length { return false; }
      var left := if i >= bpp then row[i - bpp] else 0;
      var upLeft := if i >= bpp then prev[i - bpp] else 0;
      row[i] := Add(row[i], Paeth(left, prev[i], upLeft));
      i := i + 1;
    }
    ok := true;
  }

  /** Undo one filter in place; the result is false where the loop raises IndexError. */
  method UnfilterRow(ftype: byte, row: array<byte>, prev: array<byte>, bpp: nat, stride: nat)
    returns (ok: bool)
    requires row != prev && bpp > 0 && row.Length <= stride == prev.Length
    modifies row
    ensures ok == !ReadsPastEnd(ftype, row.Length, stride, bpp)
    ensures ok ==> row[..] == Unfiltered(ftype, old(row[..]), prev[..], bpp, row.Length)
  {
    if ftype == 1 {
      ok := UnfilterSub(row, prev[..], bpp, stride);
    } else if ftype == 2 {
      ok := UnfilterUp(row, prev, bpp, stride);
    } else if ftype == 3 {
      ok := UnfilterAverage(row, prev, bpp, stride);
    } else if ftype == 4 {
      ok := UnfilterPaeth(row, prev, bpp, stride);
    } else {
      UnknownKeepsRow(ftype, row[..], prev[..], bpp, row.Length);
      ok := true;
    }
  }

  // ---------- all rows ----------

  /** The rows that remain in `raw`, one filter byte and up to `stride` bytes each. None where the
      decoder raises IndexError; a last row that was cut short passes if its filter reads nothing. */
  function UnfilteredRows(raw: seq<byte>, height: nat, stride: nat, bpp: nat, prev: seq<byte>): Option<seq<byte>>
    requires bpp > 0 && (|prev| == stride || raw == [])
    decreases height
  {
    if height == 0 then Some([])
    else if raw == [] then None
    else
      var end := Min(1 + stride, |raw|);
      var line := raw[1..end];
      if ReadsPastEnd(raw[0], |line|, stride, bpp) then None
      else
        var row := Unfiltered(raw[0], line, prev, bpp, |line|);
        match UnfilteredRows(raw[end..], height - 1, stride, bpp, row)
        case None => None
        case Some(rest) => Some(row + rest)
  }

  function Zeroes(n: nat): (z: seq<byte>)
    ensures |z| == n
  {
    seq(n, _ => 0)
  }

  /** out[a:b] = row in Python: the slice may change length. */
  function Spliced(out: seq<byte>, a: nat, b: nat, row: seq<byte>): seq<byte>
    requires a <= b
  {
    out[..Min(a, |out|)] + row + out[Min(b, |out|)..]
  }

  /** `out` holds the rows `done`, and room for more rows while there are some to come. */
  ghost predicate Filled(out: seq<byte>, done: seq<byte>, total: nat, more: bool)
  {
    if more then |done| <= |out| == total && out[..|done|] == done else out == done
  }

  lemma {:induction false} SpliceFillsRow(out: seq<byte>, done: seq<byte>, row: seq<byte>, stride: nat, total: nat,
                                          more: bool)
    requires Filled(out, done, total, true) && |done| + stride <= total
    requires if more then |row| == stride else |done| + stride == total
    ensures Filled(Spliced(out, |done|, |done| + stride, row), done + row, total, more)
  {
  }

  /** rows * stride, by addition. */
  function Area(rows: nat, stride: nat): nat
  {
    if rows == 0 then 0 else stride + Area(rows - 1, stride)
  }

  lemma {:induction false} AreaIsProduct(rows: nat, stride: nat)
    ensures Area(rows, stride) == rows * stride
  {
    if rows > 0 {
      AreaIsProduct(rows - 1, stride);
    }
  }

  /** `all` is what the rows still in `raw` from `p` on, put behind `done`, decode to. */
  ghost predicate Remaining(all: Option<seq<byte>>, done: seq<byte>, raw: seq<byte>, p: nat, rows: nat,
    stride: nat, bpp: nat, prev: seq<byte>)
  {
    bpp > 0 && (p >= |raw| || |prev| == stride) &&
    all == Prepend(done, UnfilteredRows(Slice(raw, p, p + |raw|), rows, stride, bpp, prev))
  }

  /** Read the row whose filter byte is at `p` into a new array and undo its filter. */
  method ReadRow(raw: seq<byte>, p: nat, prevRow: array<byte>, bpp: nat, stride: nat,
    ghost all: Option<seq<byte>>, ghost done: seq<byte>, ghost rows: nat) returns (row: array<byte>, ok: bool)
    requires p < |raw| && rows > 0
    requires Remaining(all, done, raw, p, rows, stride, bpp, prevRow[..])
    ensures fresh(row)
    ensures !ok ==> all.None?
    ensures ok ==> p + 1 + stride > |raw| || row.Length == stride
    ensures ok ==> Remaining(all, done + row[..], raw, p + 1 + stride, rows - 1, stride, bpp, row[..])
  {
    var line := Slice(raw, p + 1, p + 1 + stride);
    row := new byte[|line|](i requires 0 <= i < |line| => line[i]);
    assert row[..] == line;
    ghost var prev := prevRow[..];
    ok := UnfilterRow(raw[p], row, prevRow, bpp, stride);
    RowStep(raw, p, rows, stride, bpp, prev, done, all, row[..], ok);
  }

  /** The row loop of decode_png. */
  method UnfilterImage(raw: seq<byte>, stride: nat, height: nat, bpp: nat) returns (r: Option<seq<byte>>)
    requires bpp > 0
    ensures r == UnfilteredRows(raw, height, stride, bpp, Zeroes(stride))
  {
    var total := Area(height, stride);
    var out := Zeroes(total);
    ghost var all := UnfilteredRows(raw, height, stride, bpp, Zeroes(stride));
    ghost var done: seq<byte>, left := [], height;
    var prevRow := new byte[stride](_ => 0);
    assert prevRow[..] == Zeroes(stride);
    var p, start := 0, 0;
    Begin(all, raw, height, stride, bpp);
    for y := 0 to height
      invariant left == height - y && start + Area(left, stride) == total
      invariant p > |raw| || |done| == start
      invariant (p > |raw| && y < height) || Filled(out, done, total, y < height)
      invariant fresh(prevRow)
      invariant Remaining(all, done, raw, p, left, stride, bpp, prevRow[..])
    {
      if p >= |raw| {
        End(all, done, raw, p, left, stride, bpp, prevRow[..]);
        return None;
      }
      var row, ok := ReadRow(raw, p, prevRow, bpp, stride, all, done, left);
      if !ok {
        return None;
      }
      p := p + 1 + stride;
      if row.Length == stride || y + 1 == height {
        SpliceFillsRow(out, done, row[..], stride, total, y + 1 < height);
      }
      out := Spliced(out, start, start + stride, row[..]);
      start := start + stride;
      done, left := done + row[..], left - 1;
      prevRow := row;
    }
    End(all, done, raw, p, left, stride, bpp, prevRow[..]);
    r := Some(out);
  }

  lemma {:induction false} Begin(all: Option<seq<byte>>, raw: seq<byte>, height: nat, stride: nat, bpp: nat)
    requires bpp > 0 && all == UnfilteredRows(raw, height, stride, bpp, Zeroes(stride))
    ensures Remaining(all, [], raw, 0, height, stride, bpp, Zeroes(stride))
  {
    assert Slice(raw, 0, |raw|) == raw;
    assert all.Some? ==> [] + all.value == all.value;
  }

  lemma {:induction false} End(all: Option<seq<byte>>, done: seq<byte>, raw: seq<byte>, p: nat, rows: nat,
                               stride: nat, bpp: nat, prev: seq<byte>)
    requires Remaining(all, done, raw, p, rows, stride, bpp, prev)
    ensures rows == 0 ==> all == Some(done)
    ensures rows > 0 && p >= |raw| ==> all.None?
  {
    assert done + [] == done;
    assert p >= |raw| ==> Slice(raw, p, p + |raw|) == [];
  }

  function Prepend(done: seq<byte>, rest: Option<seq<byte>>): Option<seq<byte>>
  {
    if rest.Some? then Some(done + rest.value) else None
  }

  lemma {:induction false} LeftParts(raw: seq<byte>, p: nat, stride: nat)
    requires p < |raw|
    ensures var left, next := Slice(raw, p, p + |raw|), p + 1 + stride;
            var end := Min(1 + stride, |left|);
            left == raw[p..] && left[1..end] == Slice(raw, p + 1, next) && left[end..] == Slice(raw, next, next + |raw|)
  {
  }

  /** One turn of the row loop, on the specification. */
  lemma {:induction false} RowStep(raw: seq<byte>, p: nat, rows: nat, stride: nat, bpp: nat, prev: seq<byte>,
                                   done: seq<byte>, all: Option<seq<byte>>, row: seq<byte>, ok: bool)
    requires p < |raw| && rows > 0 && Remaining(all, done, raw, p, rows, stride, bpp, prev)
    requires var line := Slice(raw, p + 1, p + 1 + stride);
             ok == !ReadsPastEnd(raw[p], |line|, stride, bpp) &&
             (ok ==> row == Unfiltered(raw[p], line, prev, bpp, |line|))
    ensures !ok ==> all.None?
    ensures ok ==> p + 1 + stride > |raw| || |row| == stride
    ensures ok ==> Remaining(all, done + row, raw, p + 1 + stride, rows - 1, stride, bpp, row)
  {
    var left := Slice(raw, p, p + |raw|);
    var end := Min(1 + stride, |left|);
    LeftParts(raw, p, stride);
    if ok {
      var rest := UnfilteredRows(left[end..], rows - 1, stride, bpp, row);
      if rest.Some? {
        assert done + (row + rest.value) == (done + row) + rest.value;
      }
    }
  }

  /** The scanlines an encoder writes, with its choice of filter for each row. */
  function FilteredRows(rows: seq<seq<byte>>, types: seq<byte>, bpp: nat, prev: seq<byte>): seq<byte>
    requires bpp > 0 && |types| == |rows| && forall r :: r in rows ==> |r| == |prev|
  {
    if rows == [] then []
    else [types[0]] + Filtered(types[0], rows[0], prev, bpp) + FilteredRows(rows[1..], types[1..], bpp, rows[0])
  }

  /** For every image and every choice of filters, the decoder recovers the exact rows. */
  lemma {:induction false} DecoderUndoesEncoder(
    rows: seq<seq<byte>>, types: seq<byte>, bpp: nat, prev: seq<byte>)
    requires bpp > 0 && |types| == |rows| && forall r :: r in rows ==> |r| == |prev|
    ensures UnfilteredRows(FilteredRows(rows, types, bpp, prev), |rows|, |prev|, bpp, prev)
         == Some(Flatten(rows))
    decreases |rows|
  {
    if rows != [] {
      assert |rows[0]| == |prev|;
      DecoderUndoesEncoder(rows[1..], types[1..], bpp, rows[0]);
      FirstRow(types[0], rows[0], FilteredRows(rows[1..], types[1..], bpp, rows[0]), |rows| - 1, bpp, prev);
    }
  }

  lemma {:induction false} FirstRow(ftype: byte, row: seq<byte>, rest: seq<byte>, height: nat, bpp: nat,
                                    prev: seq<byte>)
    requires bpp > 0 && |row| == |prev|
    requires UnfilteredRows(rest, height, |prev|, bpp, row).Some?
    ensures UnfilteredRows([ftype] + Filtered(ftype, row, prev, bpp) + rest, height + 1, |prev|, bpp, prev)
         == Some(row + UnfilteredRows(rest, height, |prev|, bpp, row).value)
  {
    var line := Filtered(ftype, row, prev, bpp);
    var raw := [ftype] + line + rest;
    assert raw[1..1 + |prev|] == line && raw[1 + |prev|..] == rest;
    UnfilterUndoesFilter(ftype, row, prev, bpp, |row|);
    assert row[..|row|] == row;
  }
}
