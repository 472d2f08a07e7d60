/** Reading a picture's object (section 8.9.5 of ISO 32000-1): its size, its colors, the mask it names and its
    compressed samples. */
module PdfPictures {
  import opened Wrappers
  import opened Text
  import opened Bytes
  import opened PngDecode
  import opened PdfFormat
  import opened PdfScan
  import opened PdfReader
  import opened PdfReadback
  import opened PdfPages
  import opened PdfDocument
  import opened PdfImages

  /** What a picture's object says: `length` is what it declares, `data` what stands in its stream. */
  datatype Picture = Picture(width: nat, height: nat, gray: bool, mask: Option<nat>, length: nat, data: string)

  /** The fixed texts of a picture's object. Passing them around as one value keeps their letters out of the
      proofs about positions. */
  datatype Words = Words(width: string, height: string, colors: string, gray: string, rgb: string, depth: string,
                         mask: string, maskEnd: string, size: string, data: string, dataEnd: string)

  const PICTURE := Words(
    "<< /Type /XObject /Subtype /Image /Width ", " /Height ", " /ColorSpace ", "/DeviceGray", "/DeviceRGB",
    " /BitsPerComponent 8 /Filter /FlateDecode", " /SMask ", " 0 R", " /Length ", " >>\nstream\n", "\nendstream")

  /** What the proofs need of these texts. */
  ghost predicate Regular(g: Words)
  {
    NoDigitHead(g.height) && NoDigitHead(g.colors) && NoDigitHead(g.maskEnd) && NoDigitHead(g.data)
    && |g.mask| > 2 && |g.size| > 2 && g.mask[2] != g.size[2]
    && |g.gray| > 7 && |g.rgb| > 7 && g.gray[7] != g.rgb[7]
  }

  lemma {:induction false} PictureIsRegular()
    ensures Regular(PICTURE)
  {
    assert PICTURE.mask[2] == 'S' && PICTURE.size[2] == 'L' && PICTURE.gray[7] == 'G' && PICTURE.rgb[7] == 'R';
  }

  // ---------- the reader ----------

  /** The number between two texts, and the position behind the second one. */
  function NumberUpTo(s: string, i: nat, after: string): Option<(nat, nat)>
  {
    var (n, j) :- ReadNumber(s, i);
    if At(s, after, j) then Some((n, j + |after|)) else None
  }

  /** The mask at position i, if one is named there, and the position behind it. */
  function ReadMask(g: Words, s: string, i: nat): Option<(Option<nat>, nat)>
  {
    if At(s, g.mask, i) then
      var (id, j) :- NumberUpTo(s, i + |g.mask|, g.maskEnd);
      Some((Some(id), j))
    else Some((None, i))
  }

  /** The rest of a picture's object behind its color space. */
  function ReadData(g: Words, s: string, i: nat, width: nat, height: nat, gray: bool): Option<Picture>
  {
    if !At(s, g.depth, i) then None
    else
      var (mask, j) :- ReadMask(g, s, i + |g.depth|);
      if !At(s, g.size, j) then None
      else
        var (length, k) :- NumberUpTo(s, j + |g.size|, g.data);
        if k + |g.dataEnd| <= |s| && At(s, g.dataEnd, |s| - |g.dataEnd|)
        then Some(Picture(width, height, gray, mask, length, s[k..|s| - |g.dataEnd|])) else None
  }

  function ReadPicture(g: Words, s: string): Option<Picture>
  {
    if !At(s, g.width, 0) then None
    else
      var (width, i) :- NumberUpTo(s, |g.width|, g.height);
      var (height, j) :- NumberUpTo(s, i, g.colors);
      if At(s, g.gray, j) then ReadData(g, s, j + |g.gray|, width, height, true)
      else if At(s, g.rgb, j) then ReadData(g, s, j + |g.rgb|, width, height, false)
      else None
  }

  // ---------- the reader reads what was printed ----------

  function SpaceText(g: Words, gray: bool): string
  {
    if gray then g.gray else g.rgb
  }

  function MaskText(g: Words, mask: Option<nat>): string
  {
    if mask.Some? then g.mask + Dec(mask.value) + g.maskEnd else ""
  }

  /** The parts stand in `s` one behind the other, from position i to the end. */
  ghost predicate Stand(s: string, parts: seq<string>, i: nat)
  {
    if parts == [] then i == |s| else At(s, parts[0], i) && Stand(s, parts[1..], i + |parts[0]|)
  }

  lemma {:induction false} FlattenStands(pre: string, parts: seq<string>)
    ensures Stand(pre + Flatten(parts), parts, |pre|)
    decreases |parts|
  {
    if parts == [] {
      assert pre + Flatten(parts) == pre;
    } else {
      var s, rest := pre + Flatten(parts), Flatten(parts[1..]);
      assert s == (pre + parts[0]) + rest;
      FlattenStands(pre + parts[0], parts[1..]);
      ThreeParts(pre, parts[0], rest);
    }
  }

  lemma {:induction false} FirstStands(s: string, first: string, rest: seq<string>, i: nat)
    requires Stand(s, [first] + rest, i)
    ensures At(s, first, i) && Stand(s, rest, i + |first|)
  {
    assert ([first] + rest)[1..] == rest;
  }

  lemma {:induction false} NumberReads(s: string, i: nat, n: nat, after: string, rest: seq<string>)
    requires Stand(s, [Dec(n)] + ([after] + rest), i) && NoDigitHead(after)
    ensures var j := i + |Dec(n)| + |after|;
            NumberUpTo(s, i, after) == Some((n, j)) && Stand(s, rest, j)
  {
    FirstStands(s, Dec(n), [after] + rest, i);
    FirstStands(s, after, rest, i + |Dec(n)|);
    assert s[i + |Dec(n)| + 0] == after[0];
    ReadNumberAt(s, i, Dec(n));
  }

  lemma {:induction false} MaskReads(g: Words, s: string, i: nat, mask: Option<nat>, rest: seq<string>)
    requires Regular(g) && Stand(s, [MaskText(g, mask)] + ([g.size] + rest), i)
    ensures var j := i + |MaskText(g, mask)|;
            ReadMask(g, s, i) == Some((mask, j)) && Stand(s, [g.size] + rest, j)
  {
    FirstStands(s, MaskText(g, mask), [g.size] + rest, i);
    match mask
    case None =>
      FirstStands(s, g.size, rest, i);
      SizeIsNoMask(g, s, i);
    case Some(id) =>
      NamedMask(g, s, i, Dec(id));
  }

  lemma {:induction false} SizeIsNoMask(g: Words, s: string, i: nat)
    requires Regular(g) && At(s, g.size, i)
    ensures !At(s, g.mask, i)
  {
    assert s[i + 2] == g.size[2] != g.mask[2];
  }

  lemma {:induction false} NamedMask(g: Words, s: string, i: nat, digits: string)
    requires Regular(g) && Number(digits) && At(s, g.mask + digits + g.maskEnd, i)
    ensures ReadMask(g, s, i) == Some((Some(Value(digits)), i + |g.mask + digits + g.maskEnd|))
  {
    AtSplit(s, g.mask + digits, g.maskEnd, i);
    AtSplit(s, g.mask, digits, i);
    assert s[i + |g.mask| + |digits| + 0] == g.maskEnd[0];
    ReadNumberAt(s, i + |g.mask|, digits);
  }

  /** The parts behind the color space. */
  function Back(g: Words, p: Picture): seq<string>
  {
    [g.depth] + ([MaskText(g, p.mask)] + ([g.size] + ([Dec(p.length)] + ([g.data] + [p.data, g.dataEnd]))))
  }

  lemma {:induction false} BackReads(g: Words, s: string, i: nat, p: Picture) returns (j: nat, k: nat)
    requires Regular(g) && Stand(s, Back(g, p), i)
    ensures At(s, g.depth, i) && ReadMask(g, s, i + |g.depth|) == Some((p.mask, j)) && At(s, g.size, j)
    ensures NumberUpTo(s, j + |g.size|, g.data) == Some((p.length, k)) && Stand(s, [p.data, g.dataEnd], k)
  {
    var end := [p.data, g.dataEnd];
    var numbers := [Dec(p.length)] + ([g.data] + end);
    FirstStands(s, g.depth, [MaskText(g, p.mask)] + ([g.size] + numbers), i);
    MaskReads(g, s, i + |g.depth|, p.mask, numbers);
    j := i + |g.depth| + |MaskText(g, p.mask)|;
    FirstStands(s, g.size, numbers, j);
    NumberReads(s, j + |g.size|, p.length, g.data, end);
    k := j + |g.size| + |Dec(p.length)| + |g.data|;
  }

  lemma {:induction false} DataReads(g: Words, s: string, i: nat, p: Picture)
    requires Regular(g) && Stand(s, Back(g, p), i)
    ensures ReadData(g, s, i, p.width, p.height, p.gray) == Some(p)
  {
    var _, k := BackReads(g, s, i, p);
    StreamStands(g, s, p.data, k);
  }

  lemma {:induction false} StreamStands(g: Words, s: string, data: string, k: nat)
    requires Stand(s, [data, g.dataEnd], k)
    ensures k + |g.dataEnd| <= |s| && At(s, g.dataEnd, |s| - |g.dataEnd|) && s[k..|s| - |g.dataEnd|] == data
  {
    assert [data, g.dataEnd] == [data] + [g.dataEnd];
    FirstStands(s, data, [g.dataEnd], k);
    assert [g.dataEnd] == [g.dataEnd] + [];
    FirstStands(s, g.dataEnd, [], k + |data|);
    AtIsSlice(s, data, k);
  }

  lemma {:induction false} SpacesDiffer(g: Words, s: string, j: nat, gray: bool)
    requires Regular(g) && At(s, SpaceText(g, gray), j)
    ensures At(s, g.gray, j) <==> gray
  {
    assert s[j + 7] == SpaceText(g, gray)[7];
    assert At(s, g.gray, j) ==> s[j + 7] == g.gray[7];
  }

  /** All parts of a printed picture. */
  function Parts(g: Words, p: Picture): seq<string>
  {
    [g.width] + ([Dec(p.width)]
    + ([g.height] + ([Dec(p.height)] + ([g.colors] + ([SpaceText(g, p.gray)] + Back(g, p))))))
  }

  lemma {:induction false} SizesRead(g: Words, s: string, p: Picture) returns (i: nat, j: nat)
    requires Regular(g) && Stand(s, Parts(g, p), 0)
    ensures At(s, g.width, 0) && NumberUpTo(s, |g.width|, g.height) == Some((p.width, i))
    ensures NumberUpTo(s, i, g.colors) == Some((p.height, j)) && Stand(s, [SpaceText(g, p.gray)] + Back(g, p), j)
  {
    var space := [SpaceText(g, p.gray)] + Back(g, p);
    var height := [Dec(p.height)] + ([g.colors] + space);
    FirstStands(s, g.width, [Dec(p.width)] + ([g.height] + height), 0);
    NumberReads(s, |g.width|, p.width, g.height, height);
    i := |g.width| + |Dec(p.width)| + |g.height|;
    NumberReads(s, i, p.height, g.colors, space);
    j := i + |Dec(p.height)| + |g.colors|;
  }

  lemma {:induction false} PictureStands(g: Words, s: string, p: Picture)
    requires Regular(g) && Stand(s, Parts(g, p), 0)
    ensures ReadPicture(g, s) == Some(p)
  {
    var i, j := SizesRead(g, s, p);
    ColorsRead(g, s, j, p);
  }

  lemma {:induction false} PictureReads(g: Words, p: Picture)
    requires Regular(g)
    ensures ReadPicture(g, Flatten(Parts(g, p))) == Some(p)
  {
    var s := Flatten(Parts(g, p));
    FlattenStands("", Parts(g, p));
    assert "" + s == s;
    PictureStands(g, s, p);
  }

  lemma {:induction false} ColorsRead(g: Words, s: string, j: nat, p: Picture)
    requires Regular(g) && Stand(s, [SpaceText(g, p.gray)] + Back(g, p), j)
    ensures At(s, g.gray, j) <==> p.gray
    ensures p.gray || At(s, g.rgb, j)
    ensures ReadData(g, s, j + |SpaceText(g, p.gray)|, p.width, p.height, p.gray) == Some(p)
  {
    FirstStands(s, SpaceText(g, p.gray), Back(g, p), j);
    SpacesDiffer(g, s, j, p.gray);
    DataReads(g, s, j + |SpaceText(g, p.gray)|, p);
  }

  // ---------- the objects that are written ----------

  /** The picture in an image's own object. */
  function ColorPicture(spec: ImageSpec, mask: Option<nat>, deflate: Deflate): Picture
  {
    Picture(spec.w, spec.h, |spec.rgb| == spec.w * spec.h, mask, |spec.rgb|, deflate(spec.rgb))
  }

  lemma {:induction false} OneMorePart(first: string, rest: seq<string>)
    ensures Flatten([first] + rest) == first + Flatten(rest)
  {
    assert ([first] + rest)[1..] == rest;
  }

  lemma {:induction false} PartsBehind(g: Words, p: Picture)
    ensures Flatten(Back(g, p))
         == g.depth + (MaskText(g, p.mask) + (g.size + (Dec(p.length) + (g.data + (p.data + g.dataEnd)))))
  {
    var end := [p.data, g.dataEnd];
    OneMorePart(g.dataEnd, []);
    assert [g.dataEnd] + [] == [g.dataEnd] && g.dataEnd + Flatten([]) == g.dataEnd;
    OneMorePart(p.data, [g.dataEnd]);
    assert [p.data] + [g.dataEnd] == end;
    OneMorePart(g.data, end);
    OneMorePart(Dec(p.length), [g.data] + end);
    OneMorePart(g.size, [Dec(p.length)] + ([g.data] + end));
    OneMorePart(MaskText(g, p.mask), [g.size] + ([Dec(p.length)] + ([g.data] + end)));
    OneMorePart(g.depth, [MaskText(g, p.mask)] + ([g.size] + ([Dec(p.length)] + ([g.data] + end))));
  }

  lemma {:induction false} PartsInOrder(g: Words, p: Picture)
    ensures Flatten(Parts(g, p))
         == g.width + (Dec(p.width) + (g.height + (Dec(p.height)
            + (g.colors + (SpaceText(g, p.gray) + Flatten(Back(g, p)))))))
  {
    var space := [SpaceText(g, p.gray)] + Back(g, p);
    OneMorePart(SpaceText(g, p.gray), Back(g, p));
    OneMorePart(g.colors, space);
    OneMorePart(Dec(p.height), [g.colors] + space);
    OneMorePart(g.height, [Dec(p.height)] + ([g.colors] + space));
    OneMorePart(Dec(p.width), [g.height] + ([Dec(p.height)] + ([g.colors] + space)));
    OneMorePart(g.width, [Dec(p.width)] + ([g.height] + ([Dec(p.height)] + ([g.colors] + space))));
  }

  lemma {:induction false} Reassociate(a: string, b: string, c: string, d: string, e: string, f: string, g: string,
                                       h: string, i: string, j: string, k: string, l: string, m: string, n: string)
    ensures (a + b + c + d + e + f + g + h + i + j + k) + (l + m + n)
         == a + (b + (c + (d + (e + (f + (g + (h + (i + (j + ((k + l) + (m + n)))))))))))
  {
  }

  lemma {:induction false} PrintedInParts(p: Picture)
    ensures ImageDict(Dec(p.width), Dec(p.height), SpaceText(PICTURE, p.gray), MaskText(PICTURE, p.mask), Dec(p.length))
            + StreamOf(p.data)
         == Flatten(Parts(PICTURE, p))
  {
    PartsInOrder(PICTURE, p);
    PartsBehind(PICTURE, p);
    assert " >>\n" + "stream\n" == PICTURE.data;
    assert "stream\n" + p.data + PICTURE.dataEnd == StreamOf(p.data);
    Reassociate(PICTURE.width, Dec(p.width), PICTURE.height, Dec(p.height), PICTURE.colors,
                SpaceText(PICTURE, p.gray), PICTURE.depth, MaskText(PICTURE, p.mask), PICTURE.size,
                Dec(p.length), " >>\n", "stream\n", p.data, PICTURE.dataEnd);
  }

  /** An image's object says its size, gray or PICTURE.rgb by the number of its samples, and its mask, and holds its
      compressed samples. */
  lemma {:induction false} ColorObjectReads(spec: ImageSpec, mask: Option<nat>, deflate: Deflate)
    ensures ReadPicture(PICTURE, RgbBody(spec, if mask.Some? then " /SMask " + Ref(mask.value) else "", deflate))
         == Some(ColorPicture(spec, mask, deflate))
  {
    var p := ColorPicture(spec, mask, deflate);
    var smask := if mask.Some? then " /SMask " + Ref(mask.value) else "";
    assert smask == MaskText(PICTURE, mask) by {
      if mask.Some? {
        assert PICTURE.mask + (Dec(mask.value) + PICTURE.maskEnd) == PICTURE.mask + Dec(mask.value) + PICTURE.maskEnd;
      }
    }
    PrintedInParts(p);
    PictureIsRegular();
    PictureReads(PICTURE, p);
  }

  lemma {:induction false} AlphaObjectReads(spec: ImageSpec, alpha: seq<byte>, deflate: Deflate)
    ensures ReadPicture(PICTURE, AlphaBody(spec, alpha, deflate))
         == Some(Picture(spec.w, spec.h, true, None, |alpha|, deflate(alpha)))
  {
    var p := Picture(spec.w, spec.h, true, None, |alpha|, deflate(alpha));
    PrintedInParts(p);
    PictureIsRegular();
    PictureReads(PICTURE, p);
  }

  // ---------- in a whole file ----------

  /** An image is found under an id: its size, its color space, its compressed samples, and, if it has alpha, a
      gray mask of the same size with the compressed alpha. */
  ghost predicate IsFound(doc: Doc, id: nat, spec: ImageSpec, deflate: Deflate)
  {
    ObjectOf(doc, id).Some?
    && var p := ReadPicture(PICTURE, ObjectOf(doc, id).value);
    p.Some? && p.value.width == spec.w && p.value.height == spec.h && p.value.data == deflate(spec.rgb)
    && p.value.gray == (|spec.rgb| == spec.w * spec.h)
    && match spec.alpha
       case None => p.value.mask == None
       case Some(alpha) =>
         p.value.mask.Some? && ObjectOf(doc, p.value.mask.value).Some?
         && var q := ReadPicture(PICTURE, ObjectOf(doc, p.value.mask.value).value);
         q.Some? && q.value.width == spec.w && q.value.height == spec.h && q.value.gray && q.value.mask == None
         && q.value.data == deflate(alpha)
  }

  lemma {:induction false} IntactIsFound(doc: Doc, id: nat, spec: ImageSpec, deflate: Deflate)
    requires ImageIsIntact(doc, id, spec, deflate)
    ensures IsFound(doc, id, spec, deflate)
  {
    match spec.alpha
    case None => ColorObjectReads(spec, None, deflate);
    case Some(alpha) => MaskedIsFound(doc, id, spec, alpha, deflate);
  }

  lemma {:induction false} MaskedIsFound(doc: Doc, id: nat, spec: ImageSpec, alpha: seq<byte>, deflate: Deflate)
    requires spec.alpha == Some(alpha) && ImageIsIntact(doc, id, spec, deflate)
    ensures IsFound(doc, id, spec, deflate)
  {
    ColorObjectReads(spec, Some(id - 1), deflate);
    AlphaObjectReads(spec, alpha, deflate);
  }

  /** Every image of a written file is found in it under its id, unless its compressed bytes happen to hold the
      placeholder. */
  lemma {:induction false} FilePictures(objects: seq<string>, images: seq<ImageSpec>, pages: seq<seq<string>>,
                                        deflate: Deflate)
    requires AllFit(Offsets(PDF, BuiltFrom(objects, images, pages, deflate).objects, 1, |PDF.header|))
    ensures var built, ids := BuiltFrom(objects, images, pages, deflate), ImageIds(objects, images, deflate);
            var doc := ReadDoc(PDF, FileOf(PDF, built.objects, built.catalog));
            doc.Some? && |ids| == |images| && forall k :: 0 <= k < |images| ==>
              ImageIsFree(images[k], deflate) ==> IsFound(doc.value, ids[k], images[k], deflate)
  {
    var built, ids := BuiltFrom(objects, images, pages, deflate), ImageIds(objects, images, deflate);
    WrittenFileReadsBack(built.objects, built.catalog);
    ImagesSurviveExactly(objects, images, pages, deflate);
    forall k | 0 <= k < |images| && ImageIsFree(images[k], deflate)
      ensures IsFound(Doc(built.objects, built.catalog), ids[k], images[k], deflate)
    {
      IntactIsFound(Doc(built.objects, built.catalog), ids[k], images[k], deflate);
    }
  }

  /** The length that an image's object declares is the size of its stream exactly if compression leaves the
      number of bytes as it was. */
  lemma {:induction false} DeclaredLengthIsExact(spec: ImageSpec, mask: Option<nat>, deflate: Deflate)
    ensures var smask := if mask.Some? then " /SMask " + Ref(mask.value) else "";
            var p := ReadPicture(PICTURE, RgbBody(spec, smask, deflate));
            p.Some? && (p.value.length == |p.value.data| <==> |deflate(spec.rgb)| == |spec.rgb|)
  {
    ColorObjectReads(spec, mask, deflate);
  }
}
