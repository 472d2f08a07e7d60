/** What the decoder makes of a file, by the equations of the W3C PNG Specification (sections 5.2, 7.1, 9.2 and
    11.2.2): which files it decodes, to which samples, and which it refuses. */
module PngStandard {
  import opened Wrappers
  import opened Text
  import opened Bytes
  import opened PngFilter
  import opened PngDecode

  // ---------- one row ----------

  /** Section 9.2: `got` is the byte whose filtered form is x. Unknown types change nothing. */
  predicate Restores(ftype: byte, x: byte, got: byte, left: byte, up: byte, upLeft: byte)
  {
    match ftype
    case 1 => got == (x + left) % 256
    case 2 => got == (x + up) % 256
    case 3 => got == (x + (left + up) / 2) % 256
    case 4 => got == (x + Paeth(left, up, upLeft)) % 256
    case _ => got == x
  }

  /** The same at position i of a row below `prev`; left of the first pixel there are zeroes. */
  predicate RestoresAt(ftype: byte, line: seq<byte>, row: seq<byte>, prev: seq<byte>, bpp: nat, i: nat)
    requires bpp > 0 && i < |line| <= |prev| && i < |row|
  {
    if i < bpp then Restores(ftype, line[i], row[i], 0, prev[i], 0)
    else Restores(ftype, line[i], row[i], row[i - bpp], prev[i], prev[i - bpp])
  }

  /** `row` has the filtered form `line`. */
  ghost predicate Reconstructs(ftype: byte, line: seq<byte>, row: seq<byte>, prev: seq<byte>, bpp: nat)
  {
    bpp > 0 && |row| == |line| <= |prev| && forall i :: 0 <= i < |row| ==> RestoresAt(ftype, line, row, prev, bpp, i)
  }

  lemma {:induction false} PredictRestores(ftype: byte, x: byte, left: byte, up: byte, upLeft: byte, got: byte)
    ensures Restores(ftype, x, got, left, up, upLeft) <==> got == Add(x, Predict(ftype, left, up, upLeft))
  {
    SumsAreMod256(x, Predict(ftype, left, up, upLeft));
  }

  /** The decoder's row satisfies the equations, */
  lemma {:induction false} UnfilteredReconstructs(ftype: byte, line: seq<byte>, prev: seq<byte>, bpp: nat, i: nat)
    requires bpp > 0 && i < |line| <= |prev|
    ensures RestoresAt(ftype, line, Unfiltered(ftype, line, prev, bpp, |line|), prev, bpp, i)
  {
    var row, before := Unfiltered(ftype, line, prev, bpp, |line|), Unfiltered(ftype, line, prev, bpp, i);
    UnfilteredPrefix(ftype, line, prev, bpp, i, |line|);
    UnfilteredPrefix(ftype, line, prev, bpp, i + 1, |line|);
    assert row[i] == row[..i + 1][i] && before == row[..i];
    assert Tap(before, i, bpp) == Tap(row, i, bpp);
    PredictRestores(ftype, line[i], Tap(row, i, bpp), prev[i], Tap(prev, i, bpp), row[i]);
  }

  /** and it is the only one that does. */
  lemma {:induction false} OnlyUnfilteredReconstructs(ftype: byte, line: seq<byte>, row: seq<byte>, prev: seq<byte>,
                                                      bpp: nat, n: nat)
    requires Reconstructs(ftype, line, row, prev, bpp) && n <= |line|
    ensures row[..n] == Unfiltered(ftype, line, prev, bpp, n)
  {
    if n > 0 {
      var i := n - 1;
      OnlyUnfilteredReconstructs(ftype, line, row, prev, bpp, i);
      assert RestoresAt(ftype, line, row, prev, bpp, i);
      assert Tap(row[..i], i, bpp) == Tap(row, i, bpp);
      PredictRestores(ftype, line[i], Tap(row, i, bpp), prev[i], Tap(prev, i, bpp), row[i]);
      assert row[..n] == row[..i] + [row[i]];
    }
  }

  lemma {:induction false} RowIsReconstruction(ftype: byte, line: seq<byte>, row: seq<byte>, prev: seq<byte>, bpp: nat)
    requires bpp > 0 && |line| <= |prev|
    ensures Reconstructs(ftype, line, row, prev, bpp) <==> row == Unfiltered(ftype, line, prev, bpp, |line|)
  {
    forall i | 0 <= i < |line|
      ensures RestoresAt(ftype, line, Unfiltered(ftype, line, prev, bpp, |line|), prev, bpp, i)
    {
      UnfilteredReconstructs(ftype, line, prev, bpp, i);
    }
    if Reconstructs(ftype, line, row, prev, bpp) {
      OnlyUnfilteredReconstructs(ftype, line, row, prev, bpp, |line|);
      assert row[..|line|] == row;
    }
  }

  // ---------- all rows ----------

  /** Section 7.1: a filter byte before each line. */
  function Scanlines(types: seq<byte>, lines: seq<seq<byte>>): seq<byte>
    requires |types| == |lines|
  {
    if lines == [] then [] else [types[0]] + lines[0] + Scanlines(types[1..], lines[1..])
  }

  /** `rows` have the filtered forms `lines`, each below the row before it and the first one below `prev`. */
  ghost predicate IsImage(types: seq<byte>, lines: seq<seq<byte>>, rows: seq<seq<byte>>, prev: seq<byte>, bpp: nat)
  {
    |types| == |lines| == |rows|
    && (rows != [] ==>
          |lines[0]| == |prev| && Reconstructs(types[0], lines[0], rows[0], prev, bpp)
          && IsImage(types[1..], lines[1..], rows[1..], rows[0], bpp))
  }

  lemma {:induction false} FirstLineDecodes(ftype: byte, line: seq<byte>, row: seq<byte>, rest: seq<byte>,
                                            height: nat, bpp: nat, prev: seq<byte>)
    requires Reconstructs(ftype, line, row, prev, bpp) && |line| == |prev|
    ensures UnfilteredRows([ftype] + line + rest, height + 1, |prev|, bpp, prev)
         == Prepend(row, UnfilteredRows(rest, height, |prev|, bpp, row))
  {
    var raw := [ftype] + line + rest;
    assert raw[1..1 + |prev|] == line && raw[1 + |prev|..] == rest;
    RowIsReconstruction(ftype, line, row, prev, bpp);
  }

  /** The decoder returns the rows, whatever follows their lines. */
  lemma {:induction false} RowsDecode(types: seq<byte>, lines: seq<seq<byte>>, rows: seq<seq<byte>>, prev: seq<byte>,
                                      bpp: nat, extra: seq<byte>)
    requires bpp > 0 && IsImage(types, lines, rows, prev, bpp)
    ensures UnfilteredRows(Scanlines(types, lines) + extra, |rows|, |prev|, bpp, prev) == Some(Flatten(rows))
    ensures forall r :: r in rows ==> |r| == |prev|
    decreases |rows|
  {
    if rows != [] {
      RowsDecode(types[1..], lines[1..], rows[1..], rows[0], bpp, extra);
      var rest := Scanlines(types[1..], lines[1..]) + extra;
      assert Scanlines(types, lines) + extra == [types[0]] + lines[0] + rest;
      FirstLineDecodes(types[0], lines[0], rows[0], rest, |rows| - 1, bpp, prev);
    }
  }

  /** The whole image; what lies above its first row counts as zero. */
  ghost predicate IsWholeImage(types: seq<byte>, lines: seq<seq<byte>>, rows: seq<seq<byte>>, stride: nat, bpp: nat)
  {
    IsImage(types, lines, rows, seq(stride, _ => 0), bpp)
  }

  // ---------- which data suffices ----------

  /** Whether `raw` reaches into every row, and far enough into the last one: types 0 and above 4 read no byte
      of it, type 1 reads none of its first pixel. */
  predicate Suffices(raw: seq<byte>, height: nat, stride: nat, bpp: nat)
  {
    if height == 0 then true
    else
      var last := Area(height - 1, 1 + stride);
      |raw| > last
      && (|raw| >= last + 1 + stride || raw[last] == 0 || raw[last] > 4 || (raw[last] == 1 && stride <= bpp))
  }

  lemma {:induction false} DataSuffices(raw: seq<byte>, height: nat, stride: nat, bpp: nat, prev: seq<byte>)
    requires bpp > 0 && (|prev| == stride || raw == [])
    ensures UnfilteredRows(raw, height, stride, bpp, prev).Some? <==> Suffices(raw, height, stride, bpp)
    decreases height
  {
    if height > 1 && |raw| > 1 + stride {
      var row := Unfiltered(raw[0], raw[1..1 + stride], prev, bpp, stride);
      DataSuffices(raw[1 + stride..], height - 1, stride, bpp, row);
      var last := Area(height - 2, 1 + stride);
      assert |raw| > 1 + stride + last ==> raw[1 + stride..][last] == raw[1 + stride + last];
    } else if height > 1 {
      assert raw != [] ==> raw[Min(1 + stride, |raw|)..] == [];
    }
  }

  // ---------- whole files ----------

  function Letters(s: seq<byte>): string
  {
    seq(|s|, i requires 0 <= i < |s| => s[i] as char)
  }

  lemma {:induction false} NamesAreStandard()
    ensures Letters(SIGNATURE) == "\U{0089}PNG\r\n\U{001A}\n"
    ensures Letters(IHDR) == "IHDR" && Letters(IDAT) == "IDAT" && Letters(IEND) == "IEND"
  {
  }

  lemma {:induction false} BigEndianIsPositional(s: seq<byte>)
    requires |s| == 4
    ensures BigEndian(s) == ((s[0] as int * 256 + s[1]) * 256 + s[2]) * 256 + s[3]
  {
    assert s[..3][..2] == s[..2] && s[..2][..1] == s[..1] && s[..1][..0] == [];
    assert BigEndian(s[..1]) == s[0] && BigEndian(s[..2]) == s[0] as int * 256 + s[1];
  }

  /** Section 11.2.2, without the palette: samples per pixel. */
  function Samples(color: byte): nat
  {
    match color
    case 0 => 1
    case 2 => 3
    case 4 => 2
    case 6 => 4
    case _ => 0
  }

  lemma {:induction false} ColorsAreStandard(color: byte)
    ensures Channels(color) == if Samples(color) == 0 then None else Some(Samples(color))
  {
  }

  /** Every other sample, starting with the first. */
  ghost predicate IsGrayOf(gray: seq<byte>, flat: seq<byte>)
  {
    |gray| == (|flat| + 1) / 2 && forall k :: 0 <= k < |gray| ==> gray[k] == flat[2 * k]
  }

  lemma {:induction false} EverySecondIsGray(flat: seq<byte>)
    ensures IsGrayOf(EverySecond(flat), flat)
  {
    if flat != [] {
      var rest := flat[Min(2, |flat|)..];
      EverySecondIsGray(rest);
      forall k | 0 < k < |EverySecond(flat)| ensures EverySecond(flat)[k] == flat[2 * k] {
        assert EverySecond(flat)[k] == EverySecond(rest)[k - 1];
        assert rest[2 * (k - 1)] == flat[2 * k];
      }
    }
  }

  /** What a file is decoded to or refused for, whatever chunks surround and split its data. */
  lemma {:induction false} FileOutcome(h: Ihdr, crc: seq<byte>, body: seq<Chunk>, tail: seq<byte>, inflate: Inflate)
    requires h.width < TWO32 && h.height < TWO32 && |crc| == 4 && IsBody(body)
    ensures var r, data, bpp := Decoded(File(h, crc, body, tail), inflate), inflate(DataOf(body)), Samples(h.color);
            if h.depth != 8 || h.interlace != 0 then r == Err(UnsupportedDepth)
            else if h.color !in [0, 2, 4, 6] then r == Err(UnsupportedColor)
            else if data.None? then r == Err(ZlibError)
            else if !Suffices(data.value, h.height, h.width * bpp, bpp) then r == Err(IndexError)
            else r.Ok? && r.value.width == h.width && r.value.height == h.height
                 && r.value.channels == if h.color == 4 then 1 else bpp
  {
    ReaderRecoversFile(h, crc, body, tail);
    ColorsAreStandard(h.color);
    var data, bpp := inflate(DataOf(body)), Samples(h.color);
    if data.Some? && bpp > 0 {
      DataSuffices(data.value, h.height, h.width * bpp, bpp, Zeroes(h.width * bpp));
    }
  }

  /** The samples of an image with alpha are kept, those of gray with alpha without the alpha. */
  ghost predicate HoldsRows(image: Image, color: byte, rows: seq<seq<byte>>)
  {
    if color == 4 then image.channels == 1 && IsGrayOf(image.raw, Flatten(rows))
    else image.channels == Samples(color) && image.raw == Flatten(rows)
  }

  /** A file whose inflated data is the filtered form of an image, with or without further bytes behind it, is
      decoded to the samples of that image. */
  lemma {:induction false} FileDecodes(width: nat, height: nat, color: byte, types: seq<byte>, lines: seq<seq<byte>>,
                                       rows: seq<seq<byte>>, extra: seq<byte>, crc: seq<byte>, body: seq<Chunk>,
                                       tail: seq<byte>, inflate: Inflate)
    requires width < TWO32 && height < TWO32 && |crc| == 4 && IsBody(body) && color in [0, 2, 4, 6]
    requires |rows| == height && IsWholeImage(types, lines, rows, width * Samples(color), Samples(color))
    requires inflate(DataOf(body)) == Some(Scanlines(types, lines) + extra)
    ensures var r := Decoded(File(Plain(width, height, color), crc, body, tail), inflate);
            r.Ok? && r.value.width == width && r.value.height == height && HoldsRows(r.value, color, rows)
  {
    var bpp := Samples(color);
    ReaderRecoversFile(Plain(width, height, color), crc, body, tail);
    ColorsAreStandard(color);
    assert Zeroes(width * bpp) == seq(width * bpp, _ => 0);
    RowsDecode(types, lines, rows, Zeroes(width * bpp), bpp, extra);
    EverySecondIsGray(Flatten(rows));
  }

  // ---------- embedding ----------

  lemma {:induction false} PlanesHoldSamples(raw: seq<byte>, n: nat, i: nat)
    requires |raw| >= 4 * n && i < n
    ensures ColorPlane(raw, n)[3 * i..3 * i + 3] + [AlphaPlane(raw, n)[i]] == raw[4 * i..4 * i + 4]
  {
    var before, pixel := ColorPlane(raw, n - 1), raw[4 * (n - 1)..4 * (n - 1) + 3];
    if i < n - 1 {
      PlanesHoldSamples(raw, n - 1, i);
      assert (before + pixel)[3 * i..3 * i + 3] == before[3 * i..3 * i + 3];
    } else {
      assert (before + pixel)[3 * i..3 * i + 3] == pixel;
    }
  }

  /** The image object of an RGBA file holds the samples of each pixel, one plane of three and one of one. */
  ghost predicate SplitsPixels(spec: ImageSpec, raw: seq<byte>)
  {
    var n := spec.w * spec.h;
    spec.alpha.Some? && |raw| == 4 * n && |spec.rgb| == 3 * n && |spec.alpha.value| == n
    && forall i :: 0 <= i < n ==>
         raw[4 * i..4 * i + 4] == spec.rgb[3 * i..3 * i + 3] + [spec.alpha.value[i]]
  }

  lemma {:induction false} PlanesSplitPixels(w: nat, h: nat, raw: seq<byte>)
    requires |raw| == 4 * (w * h)
    ensures SplitsPixels(ImageSpec(w, h, ColorPlane(raw, w * h), Some(AlphaPlane(raw, w * h))), raw)
  {
    var n := w * h;
    forall i | 0 <= i < n
      ensures raw[4 * i..4 * i + 4] == ColorPlane(raw, n)[3 * i..3 * i + 3] + [AlphaPlane(raw, n)[i]]
    {
      PlanesHoldSamples(raw, n, i);
    }
  }

  /** The same files as image objects: RGBA in two planes, the others in one. */
  lemma {:induction false} FileEmbeds(width: nat, height: nat, color: byte, types: seq<byte>, lines: seq<seq<byte>>,
                                      rows: seq<seq<byte>>, extra: seq<byte>, crc: seq<byte>, body: seq<Chunk>,
                                      tail: seq<byte>, inflate: Inflate)
    requires width < TWO32 && height < TWO32 && |crc| == 4 && IsBody(body) && color in [0, 2, 4, 6]
    requires |rows| == height && IsWholeImage(types, lines, rows, width * Samples(color), Samples(color))
    requires inflate(DataOf(body)) == Some(Scanlines(types, lines) + extra)
    ensures var spec := PdfImageOf(File(Plain(width, height, color), crc, body, tail), inflate);
            spec.Some? && spec.value.w == width && spec.value.h == height
            && match color
               case 6 => SplitsPixels(spec.value, Flatten(rows))
               case 4 => spec.value.alpha.None? && IsGrayOf(spec.value.rgb, Flatten(rows))
               case _ => spec.value.alpha.None? && spec.value.rgb == Flatten(rows)
  {
    FileDecodes(width, height, color, types, lines, rows, extra, crc, body, tail, inflate);
    if color == 6 {
      RowsDecode(types, lines, rows, seq(width * 4, _ => 0), 4, extra);
      RowsRecombine(width, height, rows);
      PlanesSplitPixels(width, height, Flatten(rows));
    }
  }

  /** A file that is not decoded is not embedded. */
  lemma {:induction false} RefusedIsNotEmbedded(data: seq<byte>, inflate: Inflate)
    ensures Letters(Slice(data, 0, 8)) != "\U{0089}PNG\r\n\U{001A}\n" ==> Decoded(data, inflate) == Err(NotPng)
    ensures Decoded(data, inflate).Err? ==> PdfImageOf(data, inflate).None?
  {
    NamesAreStandard();
  }
}
