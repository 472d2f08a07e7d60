/** Reading a PNG file: sections 5.2, 5.3 and 11.2 of the W3C PNG Specification. Inflating the
    image data is a parameter, and checksums are skipped as the code skips them. */
module PngDecode {
  import opened Wrappers
  import opened Text
  import opened Bytes
  import opened PngFilter

  const SIGNATURE: seq<byte> := [0x89, 0x50, 0x4E, 0x47, 0x0D, 0x0A, 0x1A, 0x0A]
  const IHDR: seq<byte> := [0x49, 0x48, 0x44, 0x52]
  const IDAT: seq<byte> := [0x49, 0x44, 0x41, 0x54]
  const IEND: seq<byte> := [0x49, 0x45, 0x4E, 0x44]

  datatype PngError = NotPng | IndexError | UnsupportedDepth | UnsupportedColor | ZlibError

  /** What the chunk loop has gathered so far. */
  datatype Scan = Scan(width: nat, height: nat, depth: nat, color: nat, interlace: nat, idat: seq<byte>)

  const EMPTY_SCAN := Scan(0, 0, 0, 0, 0, [])

  datatype Image = Image(width: nat, height: nat, channels: nat, raw: seq<byte>)

  // ---------- the chunk loop ----------

  /** The header fields in `body`, which must hold all thirteen bytes. */
  function WithHeader(st: Scan, body: seq<byte>): Result<Scan, PngError>
  {
    if |body| < 13 then Err(IndexError)
    else Ok(st.(width := BigEndian(body[0..4]), height := BigEndian(body[4..8]),
                depth := body[8], color := body[9], interlace := body[12]))
  }

  /** A chunk ends the loop, or leaves a state for the rest. */
  datatype Turn = Stop(result: Result<Scan, PngError>) | Go(st: Scan)

  function TakeChunk(st: Scan, kind: seq<byte>, body: seq<byte>): Turn
  {
    if kind == IHDR then
      match WithHeader(st, body)
      case Err(e) => Stop(Err(e))
      case Ok(st') => Go(st')
    else if kind == IDAT then Go(st.(idat := st.idat + body))
    else if kind == IEND then Stop(Ok(st))
    else Go(st)
  }

  /** What the chunk loop returns from position `pos` on. */
  function ScanChunks(data: seq<byte>, pos: nat, st: Scan): Result<Scan, PngError>
    decreases |data| - pos
  {
    if pos >= |data| then Ok(st)
    else
      var length := BigEndian(Slice(data, pos, pos + 4));
      match TakeChunk(st, Slice(data, pos + 4, pos + 8), Slice(data, pos + 8, pos + 8 + length))
      case Stop(r) => r
      case Go(st') => ScanChunks(data, pos + 12 + length, st')
  }

  method ReadChunks(data: seq<byte>) returns (r: Result<Scan, PngError>)
    ensures r == ScanChunks(data, 8, EMPTY_SCAN)
  {
    var pos := 8;
    var width, height, depth, color, interlace := 0, 0, 0, 0, 0;
    var idat: seq<byte> := [];
    while pos < |data|
      invariant ScanChunks(data, 8, EMPTY_SCAN)
             == ScanChunks(data, pos, Scan(width, height, depth, color, interlace, idat))
      decreases |data| - pos
    {
      var length := BigEndian(Slice(data, pos, pos + 4));
      var kind := Slice(data, pos + 4, pos + 8);
      var body := Slice(data, pos + 8, pos + 8 + length);
      pos := pos + 12 + length;
      if kind == IHDR {
        if |body| < 13 {
          return Err(IndexError);
        }
        width := BigEndian(body[0..4]);
        height := BigEndian(body[4..8]);
        depth, color, interlace := body[8], body[9], body[12];
      } else if kind == IDAT {
        idat := idat + body;
      } else if kind == IEND {
        break;
      }
    }
    r := Ok(Scan(width, height, depth, color, interlace, idat));
  }

  // ---------- the whole decoder ----------

  type Inflate = seq<byte> -> Option<seq<byte>>

  /** Samples per pixel of the supported color types. */
  function Channels(color: nat): Option<nat>
  {
    if color == 0 then Some(1)
    else if color == 2 then Some(3)
    else if color == 4 then Some(2)
    else if color == 6 then Some(4)
    else None
  }

  /** flat[0::2] */
  function EverySecond(flat: seq<byte>): seq<byte>
  {
    if flat == [] then [] else [flat[0]] + EverySecond(flat[Min(2, |flat|)..])
  }

  /** The image of a file whose chunks have been read. */
  function ImageOf(st: Scan, inflate: Inflate): Result<Image, PngError>
  {
    if st.depth != 8 || st.interlace != 0 then Err(UnsupportedDepth)
    else
      match Channels(st.color)
      case None => Err(UnsupportedColor)
      case Some(channels) =>
        match inflate(st.idat)
        case None => Err(ZlibError)
        case Some(raw) =>
          var stride := st.width * channels;
          match UnfilteredRows(raw, st.height, stride, channels, Zeroes(stride))
          case None => Err(IndexError)
          case Some(out) =>
            if channels == 2 then Ok(Image(st.width, st.height, 1, EverySecond(out)))
            else Ok(Image(st.width, st.height, channels, out))
  }

  function Decoded(data: seq<byte>, inflate: Inflate): Result<Image, PngError>
  {
    if Slice(data, 0, 8) != SIGNATURE then Err(NotPng)
    else
      match ScanChunks(data, 8, EMPTY_SCAN)
      case Err(e) => Err(e)
      case Ok(st) => ImageOf(st, inflate)
  }

  lemma {:induction false} EverySecondFrom(flat: seq<byte>, i: nat)
    requires i < |flat|
    ensures EverySecond(Slice(flat, i, |flat| + i))
            == [flat[i]] + EverySecond(Slice(flat, i + 2, |flat| + i + 2))
  {
    var rest := Slice(flat, i, |flat| + i);
    assert rest[Min(2, |rest|)..] == Slice(flat, i + 2, |flat| + i + 2);
  }

  method DropAlpha(flat: seq<byte>) returns (gray: seq<byte>)
    ensures gray == EverySecond(flat)
  {
    gray := [];
    var i := 0;
    assert Slice(flat, 0, |flat|) == flat;
    while i < |flat|
      invariant EverySecond(flat) == gray + EverySecond(Slice(flat, i, |flat| + i))
    {
      EverySecondFrom(flat, i);
      gray := gray + [flat[i]];
      i := i + 2;
    }
  }

  method DecodePng(data: seq<byte>, inflate: Inflate) returns (r: Result<Image, PngError>)
    ensures r == Decoded(data, inflate)
  {
    if Slice(data, 0, 8) != SIGNATURE {
      return Err(NotPng);
    }
    var scanned := ReadChunks(data);
    if scanned.Err? {
      return Err(scanned.error);
    }
    var st := scanned.value;
    if st.depth != 8 || st.interlace != 0 {
      return Err(UnsupportedDepth);
    }
    var known := Channels(st.color);
    if known.None? {
      return Err(UnsupportedColor);
    }
    var channels := known.value;
    var inflated := inflate(st.idat);
    if inflated.None? {
      return Err(ZlibError);
    }
    var out := UnfilterImage(inflated.value, st.width * channels, st.height, channels);
    if out.None? {
      return Err(IndexError);
    }
    if channels == 2 {
      var gray := DropAlpha(out.value);
      return Ok(Image(st.width, st.height, 1, gray));
    }
    r := Ok(Image(st.width, st.height, channels, out.value));
  }

  // ---------- writing a file: the reference the reader is compared with ----------

  datatype Chunk = Chunk(kind: seq<byte>, body: seq<byte>, crc: seq<byte>)

  predicate WellFormed(c: Chunk)
  {
    |c.kind| == 4 && |c.crc| == 4 && |c.body| < TWO32
  }

  function ChunkBytes(c: Chunk): (s: seq<byte>)
    requires WellFormed(c)
    ensures |s| == 12 + |c.body|
  {
    Be32(|c.body|) + c.kind + c.body + c.crc
  }

  function Stream(chunks: seq<Chunk>): seq<byte>
    requires forall c :: c in chunks ==> WellFormed(c)
  {
    if chunks == [] then [] else ChunkBytes(chunks[0]) + Stream(chunks[1..])
  }

  /** What a list of chunks means: headers are taken, image data is collected, other chunks are
      skipped, and everything behind IEND is ignored. */
  function Meaning(chunks: seq<Chunk>, st: Scan): Result<Scan, PngError>
  {
    if chunks == [] then Ok(st)
    else
      var c := chunks[0];
      if c.kind == IHDR then
        match WithHeader(st, c.body)
        case Err(e) => Err(e)
        case Ok(st') => Meaning(chunks[1..], st')
      else if c.kind == IDAT then Meaning(chunks[1..], st.(idat := st.idat + c.body))
      else if c.kind == IEND then Ok(st)
      else Meaning(chunks[1..], st)
  }

  lemma {:induction false} ReadsOneChunk(pre: seq<byte>, c: Chunk, post: seq<byte>)
    requires WellFormed(c)
    ensures var data := pre + ChunkBytes(c) + post;
            var pos := |pre|;
            BigEndian(Slice(data, pos, pos + 4)) == |c.body| &&
            Slice(data, pos + 4, pos + 8) == c.kind &&
            Slice(data, pos + 8, pos + 8 + |c.body|) == c.body
  {
    Be32Reads(|c.body|);
    var data := pre + ChunkBytes(c) + post;
    assert Slice(data, |pre|, |pre| + 4) == Be32(|c.body|);
  }

  /** One turn of the chunk loop on a printed chunk. */
  lemma {:induction false} ScanOneChunk(pre: seq<byte>, c: Chunk, post: seq<byte>, st: Scan)
    requires WellFormed(c)
    ensures var data := pre + ChunkBytes(c) + post;
            ScanChunks(data, |pre|, st)
            == match TakeChunk(st, c.kind, c.body)
               case Stop(r) => r
               case Go(st') => ScanChunks(data, |pre + ChunkBytes(c)|, st')
  {
    ReadsOneChunk(pre, c, post);
  }

  /** Reading a printed list of chunks yields its meaning, whatever the sizes of the chunks and
      whatever follows IEND. */
  lemma {:induction false} ReaderFindsMeaning(pre: seq<byte>, chunks: seq<Chunk>, tail: seq<byte>, st: Scan)
    requires forall c :: c in chunks ==> WellFormed(c)
    requires tail == [] || exists c :: c in chunks && c.kind == IEND
    ensures ScanChunks(pre + Stream(chunks) + tail, |pre|, st) == Meaning(chunks, st)
    decreases |chunks|, 1
  {
    var data := pre + Stream(chunks) + tail;
    if chunks != [] {
      var c, rest := chunks[0], chunks[1..];
      assert c in chunks;
      var post := Stream(rest) + tail;
      assert data == pre + ChunkBytes(c) + post == (pre + ChunkBytes(c)) + Stream(rest) + tail;
      ScanOneChunk(pre, c, post, st);
      ReaderFindsRest(pre, chunks, tail, st);
    }
  }

  lemma {:induction false} ReaderFindsRest(pre: seq<byte>, chunks: seq<Chunk>, tail: seq<byte>, st: Scan)
    requires chunks != [] && forall c :: c in chunks ==> WellFormed(c)
    requires tail == [] || exists c :: c in chunks && c.kind == IEND
    ensures var c, rest := chunks[0], chunks[1..];
            var pre' := pre + ChunkBytes(c);
            var data := pre' + Stream(rest) + tail;
            var turn := TakeChunk(st, c.kind, c.body);
            Meaning(chunks, st) == if turn.Stop? then turn.result else ScanChunks(data, |pre'|, turn.st)
    decreases |chunks|, 0
  {
    var c, rest := chunks[0], chunks[1..];
    var pre' := pre + ChunkBytes(c);
    var turn := TakeChunk(st, c.kind, c.body);
    if turn.Go? {
      ReaderFindsMeaning(pre', rest, tail, turn.st);
    }
  }

  // ---------- splitting the image data does not matter ----------

  function DataOf(chunks: seq<Chunk>): seq<byte>
  {
    if chunks == [] then []
    else (if chunks[0].kind == IDAT then chunks[0].body else []) + DataOf(chunks[1..])
  }

  /** Chunks between header and end: image data and chunks the decoder does not know. */
  predicate IsBody(chunks: seq<Chunk>)
  {
    forall c :: c in chunks ==> WellFormed(c) && c.kind != IHDR && c.kind != IEND
  }

  lemma {:induction false} MeaningOfBody(body: seq<Chunk>, end: Chunk, st: Scan)
    requires IsBody(body) && end.kind == IEND
    ensures Meaning(body + [end], st) == Ok(st.(idat := st.idat + DataOf(body)))
  {
    var all := body + [end];
    if body == [] {
      assert st.idat + [] == st.idat;
    } else {
      var c, rest := body[0], body[1..];
      assert c in body;
      assert all[1..] == rest + [end];
      assert forall d :: d in rest ==> d in body;
      if c.kind == IDAT {
        MeaningOfBody(rest, end, st.(idat := st.idat + c.body));
        assert st.idat + (c.body + DataOf(rest)) == (st.idat + c.body) + DataOf(rest);
      } else {
        MeaningOfBody(rest, end, st);
        assert [] + DataOf(rest) == DataOf(rest);
      }
    }
  }

  /** The fields of a header, in their order in the chunk. */
  datatype Ihdr = Ihdr(width: nat, height: nat, depth: byte, color: byte, compression: byte, filter: byte,
                       interlace: byte)

  /** The header of a non-interlaced image with eight bits per sample. */
  function Plain(width: nat, height: nat, color: byte): Ihdr
  {
    Ihdr(width, height, 8, color, 0, 0, 0)
  }

  function Header(h: Ihdr): (body: seq<byte>)
    requires h.width < TWO32 && h.height < TWO32
    ensures |body| == 13
  {
    Be32(h.width) + Be32(h.height) + [h.depth, h.color, h.compression, h.filter, h.interlace]
  }

  /** A file: signature, header, body, end, and anything after it. */
  function File(h: Ihdr, crc: seq<byte>, body: seq<Chunk>, tail: seq<byte>): seq<byte>
    requires h.width < TWO32 && h.height < TWO32 && |crc| == 4 && IsBody(body)
  {
    SIGNATURE + Stream([Chunk(IHDR, Header(h), crc)] + body + [Chunk(IEND, [], crc)]) + tail
  }

  /** For any split of the image data and any unknown chunks in between, the reader recovers the
      header and the concatenated image data. */
  lemma {:induction false} ReaderRecoversFile(h: Ihdr, crc: seq<byte>, body: seq<Chunk>, tail: seq<byte>)
    requires h.width < TWO32 && h.height < TWO32 && |crc| == 4 && IsBody(body)
    ensures ScanChunks(File(h, crc, body, tail), 8, EMPTY_SCAN)
         == Ok(Scan(h.width, h.height, h.depth, h.color, h.interlace, DataOf(body)))
    ensures Slice(File(h, crc, body, tail), 0, 8) == SIGNATURE
  {
    var head := Chunk(IHDR, Header(h), crc);
    var end := Chunk(IEND, [], crc);
    var chunks := [head] + body + [end];
    assert chunks[1..] == body + [end];
    assert end in chunks;
    ReaderFindsMeaning(SIGNATURE, chunks, tail, EMPTY_SCAN);
    Be32Reads(h.width);
    Be32Reads(h.height);
    assert head.body[0..4] == Be32(h.width) && head.body[4..8] == Be32(h.height);
    var st := Scan(h.width, h.height, h.depth, h.color, h.interlace, []);
    assert WithHeader(EMPTY_SCAN, head.body) == Ok(st);
    MeaningOfBody(body, end, st);
    assert [] + DataOf(body) == DataOf(body);
  }

  // ---------- the whole round trip ----------

  /** The bytes the decoder should return for the given rows: gray-with-alpha loses its alpha. */
  function Expected(color: byte, rows: seq<seq<byte>>): seq<byte>
  {
    if color == 4 then EverySecond(Flatten(rows)) else Flatten(rows)
  }

  /** Decoding an encoded image gives its exact samples: every size, color type, choice of
      filters, split of the compressed data, surrounding chunks and bytes behind the end. */
  lemma {:induction false} DecodeUndoesEncode(
    width: nat, height: nat, color: byte, rows: seq<seq<byte>>, types: seq<byte>,
    crc: seq<byte>, body: seq<Chunk>, tail: seq<byte>, inflate: Inflate)
    requires width < TWO32 && height < TWO32 && |crc| == 4 && IsBody(body)
    requires Channels(color).Some?
    requires |rows| == |types| == height
    requires forall r :: r in rows ==> |r| == width * Channels(color).value
    requires inflate(DataOf(body)) ==
               Some(FilteredRows(rows, types, Channels(color).value, Zeroes(width * Channels(color).value)))
    ensures Decoded(File(Plain(width, height, color), crc, body, tail), inflate)
         == Ok(Image(width, height, if color == 4 then 1 else Channels(color).value, Expected(color, rows)))
  {
    ReaderRecoversFile(Plain(width, height, color), crc, body, tail);
    DecoderUndoesEncoder(rows, types, Channels(color).value, Zeroes(width * Channels(color).value));
  }

  // ---------- colour and alpha planes ----------

  datatype ImageSpec = ImageSpec(w: nat, h: nat, rgb: seq<byte>, alpha: Option<seq<byte>>)

  /** One pixel of four samples after another. */
  function Interleave(rgb: seq<byte>, alpha: seq<byte>, n: nat): seq<byte>
    requires |rgb| >= 3 * n && |alpha| >= n
  {
    if n == 0 then [] else Interleave(rgb, alpha, n - 1) + rgb[3 * (n - 1)..3 * n] + [alpha[n - 1]]
  }

  /** The planes of the first n pixels. */
  function ColorPlane(raw: seq<byte>, n: nat): (rgb: seq<byte>)
    requires |raw| >= 4 * n
    ensures |rgb| == 3 * n
  {
    if n == 0 then [] else ColorPlane(raw, n - 1) + raw[4 * (n - 1)..4 * (n - 1) + 3]
  }

  function AlphaPlane(raw: seq<byte>, n: nat): (alpha: seq<byte>)
    requires |raw| >= 4 * n
    ensures |alpha| == n
  {
    if n == 0 then [] else AlphaPlane(raw, n - 1) + [raw[4 * n - 1]]
  }

  lemma {:induction false} InterleaveIgnoresTail(rgb: seq<byte>, alpha: seq<byte>, r: seq<byte>, a: seq<byte>, n: nat)
    requires |rgb| >= 3 * n && |alpha| >= n
    ensures Interleave(rgb + r, alpha + a, n) == Interleave(rgb, alpha, n)
  {
    if n > 0 {
      InterleaveIgnoresTail(rgb, alpha, r, a, n - 1);
      assert (rgb + r)[3 * (n - 1)..3 * n] == rgb[3 * (n - 1)..3 * n];
    }
  }

  /** The two planes recombine to the raw pixels. */
  lemma {:induction false} PlanesRecombine(raw: seq<byte>, n: nat)
    requires |raw| >= 4 * n
    ensures Interleave(ColorPlane(raw, n), AlphaPlane(raw, n), n) == raw[..4 * n]
  {
    if n > 0 {
      PlanesRecombine(raw, n - 1);
      var rgb, alpha := ColorPlane(raw, n - 1), AlphaPlane(raw, n - 1);
      var pixel := raw[4 * (n - 1)..4 * (n - 1) + 3];
      InterleaveIgnoresTail(rgb, alpha, pixel, [raw[4 * n - 1]], n - 1);
      assert ColorPlane(raw, n)[3 * (n - 1)..3 * n] == pixel;
      assert raw[..4 * n] == raw[..4 * (n - 1)] + pixel + [raw[4 * n - 1]];
    }
  }

  /** Three bytes and one byte behind the planes of n pixels make the planes of n + 1. */
  lemma {:induction false} OnePixelMore(raw: seq<byte>, n: nat)
    requires |raw| >= 4 * n + 4
    ensures var pixel := raw[4 * n..4 * n + 4];
            ColorPlane(raw, n + 1) == ColorPlane(raw, n) + pixel[..3]
            && AlphaPlane(raw, n + 1) == AlphaPlane(raw, n) + pixel[3..]
  {
    assert raw[4 * n..4 * n + 4][..3] == raw[4 * n..4 * n + 3];
    assert raw[4 * n..4 * n + 4][3..] == [raw[4 * n + 3]];
  }

  /** Store the four samples of a pixel. */
  method PutPixel(rgb: array<byte>, dst: nat, alpha: array<byte>, i: nat, pixel: seq<byte>)
    requires rgb != alpha && dst + 3 <= rgb.Length && i < alpha.Length && |pixel| == 4
    modifies rgb, alpha
    ensures rgb[..dst + 3] == old(rgb[..dst]) + pixel[..3] && alpha[..i + 1] == old(alpha[..i]) + pixel[3..]
  {
    rgb[dst], rgb[dst + 1], rgb[dst + 2] := pixel[0], pixel[1], pixel[2];
    alpha[i] := pixel[3];
  }

  /** The pixel loop; None where it raises IndexError because the data is short. */
  method SplitPlanes(raw: seq<byte>, pixels: nat) returns (r: Option<(seq<byte>, seq<byte>)>)
    ensures r == if |raw| >= 4 * pixels then Some((ColorPlane(raw, pixels), AlphaPlane(raw, pixels))) else None
  {
    var rgb, alpha := new byte[3 * pixels](_ => 0), new byte[pixels](_ => 0);
    var src, dst := 0, 0;
    for i := 0 to pixels
      invariant src == 4 * i && dst == 3 * i && src <= |raw|
      invariant rgb[..dst] == ColorPlane(raw, i) && alpha[..i] == AlphaPlane(raw, i)
    {
      if src + 3 >= |raw| {
        return None;
      }
      PutPixel(rgb, dst, alpha, i, raw[src..src + 4]);
      OnePixelMore(raw, i);
      src := src + 4;
      dst := dst + 3;
    }
    assert rgb[..] == rgb[..dst] && alpha[..] == alpha[..pixels];
    r := Some((rgb[..], alpha[..]));
  }

  /** The image a PNG file is embedded as; None makes the caller print a note instead. */
  function PdfImageOf(data: seq<byte>, inflate: Inflate): Option<ImageSpec>
  {
    match Decoded(data, inflate)
    case Err(_) => None
    case Ok(Image(w, h, channels, raw)) =>
      if channels == 4 then
        if |raw| >= 4 * (w * h)
        then Some(ImageSpec(w, h, ColorPlane(raw, w * h), Some(AlphaPlane(raw, w * h))))
        else None
      else Some(ImageSpec(w, h, raw, None))
  }

  method PngToPdfImage(data: seq<byte>, inflate: Inflate) returns (r: Option<ImageSpec>)
    ensures r == PdfImageOf(data, inflate)
  {
    var decoded := DecodePng(data, inflate);
    if decoded.Err? {
      return None;
    }
    var image := decoded.value;
    if image.channels == 4 {
      var planes := SplitPlanes(image.raw, image.width * image.height);
      if planes.None? {
        return None;
      }
      return Some(ImageSpec(image.width, image.height, planes.value.0, Some(planes.value.1)));
    }
    r := Some(ImageSpec(image.width, image.height, image.raw, None));
  }

  lemma {:induction false} FlattenLength(rows: seq<seq<byte>>, stride: nat)
    requires forall r :: r in rows ==> |r| == stride
    ensures |Flatten(rows)| == Area(|rows|, stride)
  {
    if rows != [] {
      assert |rows[0]| == stride;
      FlattenLength(rows[1..], stride);
    }
  }

  /** An encoded RGBA image is embedded as two planes that recombine to its exact samples. */
  lemma {:induction false} EmbeddedRgbaRecombines(
    width: nat, height: nat, rows: seq<seq<byte>>, types: seq<byte>,
    crc: seq<byte>, body: seq<Chunk>, tail: seq<byte>, inflate: Inflate)
    requires width < TWO32 && height < TWO32 && |crc| == 4 && IsBody(body)
    requires |rows| == |types| == height && forall r :: r in rows ==> |r| == width * 4
    requires inflate(DataOf(body)) == Some(FilteredRows(rows, types, 4, Zeroes(width * 4)))
    ensures var spec := PdfImageOf(File(Plain(width, height, 6), crc, body, tail), inflate);
            spec.Some? && spec.value.w == width && spec.value.h == height && spec.value.alpha.Some? &&
            |spec.value.rgb| >= 3 * (width * height) && |spec.value.alpha.value| >= width * height &&
            Interleave(spec.value.rgb, spec.value.alpha.value, width * height) == Flatten(rows)
  {
    DecodeUndoesEncode(width, height, 6, rows, types, crc, body, tail, inflate);
    RowsRecombine(width, height, rows);
  }

  lemma {:induction false} RowsRecombine(width: nat, height: nat, rows: seq<seq<byte>>)
    requires |rows| == height && forall r :: r in rows ==> |r| == width * 4
    ensures var raw, n := Flatten(rows), width * height;
            |raw| == 4 * n && Interleave(ColorPlane(raw, n), AlphaPlane(raw, n), n) == raw
  {
    FlattenLength(rows, width * 4);
    PixelCount(width, height);
    PlanesRecombine(Flatten(rows), width * height);
    assert Flatten(rows)[..|Flatten(rows)|] == Flatten(rows);
  }

  lemma {:induction false} PixelCount(width: nat, height: nat)
    ensures Area(height, width * 4) == 4 * (width * height)
  {
    AreaIsProduct(height, width * 4);
    assert height * (width * 4) == (height * width) * 4 == (width * height) * 4;
  }
}
