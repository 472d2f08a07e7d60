/** The image objects of a written document: when they survive the patching of the parents. */
module PdfImages {
  import opened Wrappers
  import opened Text
  import opened PngDecode
  import opened PdfFormat
  import opened PdfPages
  import opened PdfDocument
  import opened PdfReader

  /** Patching an object with a stream whose dictionary lacks the letter E patches its data only. */
  lemma {:induction false} PatchOfData(front: string, data: string, pagesId: nat)
    requires 'E' !in front
    ensures Patch(front + ['\n'] + (data + ['\n'] + "endstream"), pagesId)
         == front + ['\n'] + (Patch(data, pagesId) + ['\n'] + "endstream")
  {
    var fixed := PARENT_KEY + Ref(pagesId);
    assert '\n' !in PARENT;
    PatchLeavesAlone(front, pagesId);
    PatchLeavesAlone("endstream", pagesId);
    ReplaceConcat(data, '\n', "endstream", PARENT, fixed);
    ReplaceConcat(front, '\n', data + ['\n'] + "endstream", PARENT, fixed);
  }

  lemma {:induction false} DataSurvives(front: string, data: string, pagesId: nat)
    requires 'E' !in front
    ensures var body := front + ['\n'] + (data + ['\n'] + "endstream");
            Patch(body, pagesId) == body <==> PlaceholderFree(data)
  {
    PatchOfData(front, data, pagesId);
    if PlaceholderFree(data) {
      ReplaceAbsent(data, PARENT, PARENT_KEY + Ref(pagesId));
    } else {
      var k := PatchChangesContent(data, pagesId);
      BehindFront(front + ['\n'], data, ['\n'] + "endstream", k);
      BehindFront(front + ['\n'], Patch(data, pagesId), ['\n'] + "endstream", k);
      assert front + ['\n'] + (data + ['\n'] + "endstream") == front + ['\n'] + (data + (['\n'] + "endstream"));
      assert front + ['\n'] + (Patch(data, pagesId) + ['\n'] + "endstream")
          == front + ['\n'] + (Patch(data, pagesId) + (['\n'] + "endstream"));
    }
  }

  lemma {:induction false} BehindFront(front: string, data: string, back: string, k: nat)
    requires k < |data|
    ensures (front + (data + back))[|front| + k] == data[k]
  {
  }

  /** An image object survives patching exactly if its compressed bytes do not hold the placeholder. */
  lemma {:induction false} ImageSurvives(w: nat, h: nat, space: string, smask: string, length: nat, data: string,
                                         pagesId: nat)
    requires 'E' !in space && 'E' !in smask
    ensures var body := ImageDict(Dec(w), Dec(h), space, smask, Dec(length)) + StreamOf(data);
            Patch(body, pagesId) == body <==> PlaceholderFree(data)
  {
    DigitsHaveNoE(w);
    DigitsHaveNoE(h);
    DigitsHaveNoE(length);
    var dict := ImageDict(Dec(w), Dec(h), space, smask, Dec(length));
    DictHasNoE(Dec(w), Dec(h), space, smask, Dec(length));
    NoEInFour(dict, "stream", "", "");
    assert dict + "stream" + "" + "" == dict + "stream";
    DataSurvives(dict + "stream", data, pagesId);
    RegroupData(dict, data);
  }

  lemma {:induction false} RegroupData(dict: string, data: string)
    ensures dict + StreamOf(data) == (dict + "stream") + ['\n'] + (data + ['\n'] + "endstream")
  {
  }

  lemma {:induction false} NoEInFour(a: string, b: string, c: string, d: string)
    requires 'E' !in a && 'E' !in b && 'E' !in c && 'E' !in d
    ensures 'E' !in a + b + c + d
  {
  }

  lemma {:induction false} DictHasNoE(w: string, h: string, space: string, smask: string, length: string)
    requires 'E' !in w && 'E' !in h && 'E' !in space && 'E' !in smask && 'E' !in length
    ensures 'E' !in ImageDict(w, h, space, smask, length)
  {
    var a, b := "<< /Type /XObject /Subtype /Image /Width ", " /Height ";
    var c, d := " /ColorSpace ", " /BitsPerComponent 8 /Filter /FlateDecode";
    var e, f := " /Length ", " >>\n";
    assert 'E' !in a && 'E' !in b && 'E' !in c;
    assert 'E' !in d && 'E' !in e && 'E' !in f;
    NoEInFour(a, w, b, h);
    NoEInFour(a + w + b + h, c, space, d);
    NoEInFour(a + w + b + h + c + space + d, smask, e, length);
    NoEInFour(a + w + b + h + c + space + d + smask + e + length, f, "", "");
    assert a + w + b + h + c + space + d + smask + e + length + f + "" + "" == ImageDict(w, h, space, smask, length);
  }

  // ---------- in a whole document ----------

  /** An image's object in the document is what the writer printed for it. */
  predicate ImageIsIntact(doc: Doc, id: nat, spec: ImageSpec, deflate: Deflate)
  {
    match spec.alpha
    case None => ObjectOf(doc, id) == Some(RgbBody(spec, "", deflate))
    case Some(alpha) =>
      id >= 1 && ObjectOf(doc, id) == Some(RgbBody(spec, " /SMask " + Ref(id - 1), deflate))
      && ObjectOf(doc, id - 1) == Some(AlphaBody(spec, alpha, deflate))
  }

  predicate ImageIsFree(spec: ImageSpec, deflate: Deflate)
  {
    Find(deflate(spec.rgb), PARENT, 0).None? && (spec.alpha.Some? ==> Find(deflate(spec.alpha.value), PARENT, 0).None?)
  }

  /** In every built document, each image's objects, the image whose id the pages print and the mask that it
      names, are as they were printed exactly if the compressed bytes of neither hold the placeholder. */
  lemma {:induction false} ImagesSurviveExactly(objects: seq<string>, images: seq<ImageSpec>, pages: seq<seq<string>>,
                                                deflate: Deflate)
    ensures var built, ids := BuiltFrom(objects, images, pages, deflate), ImageIds(objects, images, deflate);
            |ids| == |images| && forall k :: 0 <= k < |images| ==>
              (ImageIsIntact(Doc(built.objects, built.catalog), ids[k], images[k], deflate)
               <==> ImageIsFree(images[k], deflate))
  {
    var built := BuiltFrom(objects, images, pages, deflate);
    var base, ids, pagesId := BuiltLayout(objects, images, pages, deflate);
    forall k | 0 <= k < |images|
      ensures ImageIsIntact(Doc(built.objects, built.catalog), ids[k], images[k], deflate)
              <==> ImageIsFree(images[k], deflate)
    {
      assert ImageResolves(base, ids[k], images[k], deflate);
      HeldImage(Doc(built.objects, built.catalog), base, ids[k], images[k], deflate, pagesId);
    }
  }

  lemma {:induction false} HeldImage(doc: Doc, base: seq<string>, id: nat, spec: ImageSpec, deflate: Deflate,
                                     pagesId: nat)
    requires Holds(doc, 0, base, pagesId) && ImageResolves(base, id, spec, deflate)
    ensures ImageIsIntact(doc, id, spec, deflate) <==> ImageIsFree(spec, deflate)
  {
    HeldObject(doc, base, id, pagesId);
    match spec.alpha
    case None => HeldRgb(doc, base[id - 1], id, spec, "", deflate, pagesId);
    case Some(alpha) =>
      HeldObject(doc, base, id - 1, pagesId);
      MaskHasNoE(id - 1);
      HeldRgb(doc, base[id - 1], id, spec, " /SMask " + Ref(id - 1), deflate, pagesId);
      assert 'E' !in "/DeviceGray" && 'E' !in "";
      ImageSurvives(spec.w, spec.h, "/DeviceGray", "", |alpha|, deflate(alpha), pagesId);
  }

  lemma {:induction false} HeldObject(doc: Doc, base: seq<string>, id: nat, pagesId: nat)
    requires Holds(doc, 0, base, pagesId) && 1 <= id <= |base|
    ensures ObjectOf(doc, id) == Some(Patch(base[id - 1], pagesId))
  {
    assert doc.objects[0 + (id - 1)] == Patch(base[id - 1], pagesId);
  }

  lemma {:induction false} HeldRgb(doc: Doc, body: string, id: nat, spec: ImageSpec, smask: string, deflate: Deflate,
                                   pagesId: nat)
    requires 'E' !in smask && body == RgbBody(spec, smask, deflate) && ObjectOf(doc, id) == Some(Patch(body, pagesId))
    ensures ObjectOf(doc, id) == Some(RgbBody(spec, smask, deflate)) <==> PlaceholderFree(deflate(spec.rgb))
  {
    assert 'E' !in ColorSpace(spec);
    ImageSurvives(spec.w, spec.h, ColorSpace(spec), smask, |spec.rgb|, deflate(spec.rgb), pagesId);
  }

  lemma {:induction false} MaskHasNoE(id: nat)
    ensures 'E' !in " /SMask " + Ref(id)
  {
    DigitsHaveNoE(id);
  }
}
