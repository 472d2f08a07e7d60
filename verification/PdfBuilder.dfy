/** The PDF writer. */
module PdfBuilder {
  import opened Text
  import opened Bytes
  import opened PngDecode
  import opened PdfFormat
  import opened PdfDrawing

  /** The pages print these operations. */
  ghost predicate Prints(pages: seq<seq<string>>, drawn: seq<seq<Op>>)
  {
    |drawn| == |pages| && forall i {:trigger pages[i]} :: 0 <= i < |pages| ==> pages[i] == PrintedAll(drawn[i])
  }

  lemma {:induction false} OpIsPrinted(pages: seq<seq<string>>, drawn: seq<seq<Op>>, op: Op, line: string)
    requires Prints(pages, drawn) && pages != [] && line == Printed(op)
    ensures Prints(pages[..|pages| - 1] + [pages[|pages| - 1] + [line]], OneMoreOp(drawn, op))
  {
    PrintedAllAppend(drawn[|pages| - 1], op);
  }

  class Builder {
    var objects: seq<string>
    var pages: seq<seq<string>>
    var images: seq<ImageSpec>
    ghost var drawn: seq<seq<Op>>  // what the content streams in `pages` print

    ghost predicate Valid()
      reads this
    {
      Prints(pages, drawn)
    }

    constructor ()
      ensures Valid() && objects == [] && pages == [] && images == [] && drawn == []
    {
      objects, pages, images, drawn := [], [], [], [];
    }

    method AddObject(body: string) returns (id: nat)
      modifies this`objects
      ensures objects == old(objects) + [body] && id == |objects|
    {
      objects := objects + [body];
      id := |objects|;
    }

    method NewPage()
      requires Valid()
      modifies this`pages, this`drawn
      ensures Valid() && drawn == old(drawn) + [[]]
    {
      pages, drawn := pages + [[]], drawn + [[]];
    }

    /** Append an operation to the last page. */
    method Draw(op: Op)
      requires Valid() && pages != []
      modifies this`pages, this`drawn
      ensures Valid() && drawn == OneMoreOp(old(drawn), op)
    {
      var last := |pages| - 1;
      var line := Printed(op);
      OpIsPrinted(pages, drawn, op, line);
      pages, drawn := pages[..last] + [pages[last] + [line]], OneMoreOp(drawn, op);
    }

    /** Draw an image; false, and nothing drawn, when the file cannot be decoded. */
    method DrawImage(png: seq<byte>, x: int, y: int, w: int, h: int, inflate: Inflate) returns (ok: bool)
      requires Valid() && pages != []
      modifies this`pages, this`drawn, this`images
      ensures Valid() && ok == PdfImageOf(png, inflate).Some?
      ensures !ok ==> drawn == old(drawn) && images == old(images)
      ensures ok ==> images == old(images) + [PdfImageOf(png, inflate).value]
      ensures ok ==> drawn == OneMoreOp(old(drawn), ImageOp(old(|images|), x, y, w, h))
    {
      var spec := PngToPdfImage(png, inflate);
      if spec.None? {
        return false;
      }
      var index := |images|;
      images := images + [spec.value];
      Draw(ImageOp(index, x, y, w, h));
      ok := true;
    }

    method Build(deflate: Deflate) returns (file: string)
      modifies this`objects
      ensures var built := BuiltFrom(old(objects), images, pages, deflate);
              objects == built.objects && file == FileOf(PDF, built.objects, built.catalog)
    {
      var catalog := FinishObjects(deflate);
      file := WriteFile(PDF, objects, catalog);
    }

    /** Add the fonts, the images, the pages and the root objects, and patch the parents. */
    method FinishObjects(deflate: Deflate) returns (catalog: nat)
      modifies this`objects
      ensures BuiltFrom(old(objects), images, pages, deflate) == Built(objects, catalog)
    {
      ghost var before := objects;
      var font, bold := AddFonts();
      var imageIds := AddImageObjects(deflate);
      ghost var withImages := objects;
      var pageIds := AddPageObjects(Resources(font, bold, imageIds));
      ghost var withPages := objects;
      var pagesId;
      pagesId, catalog := AddRoot(pageIds);
      PatchObjects(pagesId);
      BuiltInSteps(before, images, pages, deflate, Laid(withImages, imageIds), Laid(withPages, pageIds), objects);
    }

    method AddFonts() returns (font: nat, bold: nat)
      modifies this`objects
      ensures objects == old(objects) + [FONT, FONT_BOLD] && font == |old(objects)| + 1 && bold == font + 1
    {
      font := AddObject(FONT);
      bold := AddObject(FONT_BOLD);
    }

    /** Add the pages object and the catalog. */
    method AddRoot(pageIds: seq<nat>) returns (pagesId: nat, catalog: nat)
      modifies this`objects
      ensures objects == old(objects) + [PagesBody(pageIds), CatalogBody(pagesId)]
      ensures pagesId == |old(objects)| + 1 && catalog == pagesId + 1
    {
      pagesId := AddObject(PagesBody(pageIds));
      catalog := AddObject(CatalogBody(pagesId));
    }

    method AddImageObjects(deflate: Deflate) returns (ids: seq<nat>)
      modifies this`objects
      ensures Laid(objects, ids) == AddImages(Laid(old(objects), []), images, deflate)
    {
      ids := [];
      for i := 0 to |images|
        invariant AddImages(Laid(old(objects), []), images, deflate)
               == AddImages(Laid(objects, ids), images[i..], deflate)
      {
        assert images[i..][1..] == images[i + 1..];
        var rgbId := AddImageObject(images[i], deflate, ids);
        ids := ids + [rgbId];
      }
    }

    method AddImageObject(spec: ImageSpec, deflate: Deflate, ghost ids: seq<nat>) returns (rgbId: nat)
      modifies this`objects
      ensures Laid(objects, ids + [rgbId]) == AddImage(Laid(old(objects), ids), spec, deflate)
    {
      var smask := "";
      if spec.alpha.Some? {
        var alphaId := AddObject(AlphaBody(spec, spec.alpha.value, deflate));
        smask := " /SMask " + Ref(alphaId);
      }
      rgbId := AddObject(RgbBody(spec, smask, deflate));
    }

    method AddPageObjects(resources: string) returns (ids: seq<nat>)
      modifies this`objects
      ensures Laid(objects, ids) == AddPages(Laid(old(objects), []), pages, resources)
    {
      ids := [];
      for i := 0 to |pages|
        invariant AddPages(Laid(old(objects), []), pages, resources)
               == AddPages(Laid(objects, ids), pages[i..], resources)
      {
        ghost var here := Laid(objects, ids);
        assert pages[i..][1..] == pages[i + 1..];
        var contentId := AddObject(ContentBody(Join(pages[i], "\n")));
        var pageId := AddObject(PageBody(PARENT, resources, contentId));
        ids := ids + [pageId];
        assert Laid(objects, ids) == AddPage(here, pages[i], resources);
      }
    }

    /** Replace the placeholder in the objects that hold it. */
    method PatchObjects(pagesId: nat)
      modifies this`objects
      ensures objects == Patched(old(objects), pagesId)
    {
      for i := 0 to |objects|
        invariant |objects| == |old(objects)|
        invariant forall k :: 0 <= k < i ==> objects[k] == Patch(old(objects)[k], pagesId)
        invariant forall k :: i <= k < |objects| ==> objects[k] == old(objects)[k]
      {
        if Find(objects[i], PARENT, 0).Some? {
          objects := objects[i := Patch(objects[i], pagesId)];
        } else {
          ReplaceAbsent(objects[i], PARENT, PARENT_KEY + Ref(pagesId));
        }
      }
      assert objects == Patched(old(objects), pagesId);
    }
  }

  lemma {:induction false} BuiltInSteps(before: seq<string>, images: seq<ImageSpec>, pages: seq<seq<string>>,
    deflate: Deflate, withImages: Laid, withPages: Laid, objects: seq<string>)
    requires withImages == AddImages(Laid(before + [FONT, FONT_BOLD], []), images, deflate)
    requires withPages == AddPages(Laid(withImages.objects, []), pages,
                                   Resources(|before| + 1, |before| + 2, withImages.ids))
    requires var pagesId := |withPages.objects| + 1;
             objects == Patched(withPages.objects + [PagesBody(withPages.ids), CatalogBody(pagesId)], pagesId)
    ensures BuiltFrom(before, images, pages, deflate) == Built(objects, |withPages.objects| + 2)
  {
  }

  /** Write header, objects, table and trailer. */
  method WriteFile(g: Syntax, objects: seq<string>, catalog: nat) returns (out: string)
    ensures out == FileOf(g, objects, catalog)
  {
    var offsets;
    out, offsets := WriteObjects(g, objects);
    var xref := |out|;
    var count := Dec(|objects| + 1);
    out := out + g.xref + count + "\n" + g.free;
    out := WriteEntries(g, out, offsets);
    PiecesInOrder(g, TextsOf(g, objects, catalog));
    out := out + (g.trailer + count + g.root + Dec(catalog) + g.startxref + Dec(xref) + g.eof);
  }

  /** Write the header and the objects, recording where each object starts. */
  method WriteObjects(g: Syntax, objects: seq<string>) returns (out: string, offsets: seq<nat>)
    ensures out == g.header + Sections(g, objects, 1)
    ensures offsets == Offsets(g, objects, 1, |g.header|)
  {
    out := g.header;
    offsets := [];
    for i := 0 to |objects|
      invariant out + Sections(g, objects[i..], i + 1) == g.header + Sections(g, objects, 1)
      invariant offsets + Offsets(g, objects[i..], i + 1, |out|) == Offsets(g, objects, 1, |g.header|)
    {
      SectionsUnrolled(g, objects, i, out, offsets);
      offsets := offsets + [|out|];
      out := out + Section(g, i + 1, objects[i]);
    }
  }

  lemma {:induction false} SectionsUnrolled(g: Syntax, objects: seq<string>, i: nat, out: string, offsets: seq<nat>)
    requires i < |objects|
    ensures var section, rest := Section(g, i + 1, objects[i]), objects[i + 1..];
            out + Sections(g, objects[i..], i + 1) == out + section + Sections(g, rest, i + 2)
            && offsets + Offsets(g, objects[i..], i + 1, |out|)
               == offsets + [|out|] + Offsets(g, rest, i + 2, |out + section|)
  {
    var section, rest := Section(g, i + 1, objects[i]), objects[i + 1..];
    assert objects[i..][1..] == rest && objects[i..][0] == objects[i];
    AppendSection(out, section, Sections(g, rest, i + 2));
    AppendOffset(offsets, |out|, Offsets(g, rest, i + 2, |out + section|));
  }

  lemma {:induction false} AppendOffset(offsets: seq<nat>, next: nat, rest: seq<nat>)
    ensures offsets + ([next] + rest) == offsets + [next] + rest
  {
  }

  /** Write the entries of the table. */
  method WriteEntries(g: Syntax, head: string, offsets: seq<nat>) returns (out: string)
    ensures out == head + Entries(g, offsets)
  {
    out := head;
    for i := 0 to |offsets|
      invariant out + Entries(g, offsets[i..]) == head + Entries(g, offsets)
    {
      assert offsets[i..][1..] == offsets[i + 1..];
      AppendSection(out, Entry(g, offsets[i]), Entries(g, offsets[i + 1..]));
      out := out + Entry(g, offsets[i]);
    }
  }

  lemma {:induction false} AppendSection(out: string, next: string, rest: string)
    ensures out + (next + rest) == (out + next) + rest
  {
  }

  lemma {:induction false} FlattenSnoc(parts: seq<string>, last: string)
    ensures Flatten(parts + [last]) == Flatten(parts) + last
  {
    FlattenConcat(parts, [last]);
    assert Flatten([last]) == last;
  }

  lemma {:induction false} FlattenSeven(a: string, b: string, c: string, d: string, e: string, f: string, g: string)
    ensures Flatten([a, b, c, d, e, f, g]) == a + b + c + d + e + f + g
  {
    FlattenSnoc([], a);
    FlattenSnoc([a], b);
    FlattenSnoc([a, b], c);
    FlattenSnoc([a, b, c], d);
    FlattenSnoc([a, b, c, d], e);
    FlattenSnoc([a, b, c, d, e], f);
    FlattenSnoc([a, b, c, d, e, f], g);
    assert [] + [a] == [a] && [a] + [b] == [a, b] && [a, b] + [c] == [a, b, c] && [a, b, c] + [d] == [a, b, c, d];
    assert [a, b, c, d] + [e] == [a, b, c, d, e] && [a, b, c, d, e] + [f] == [a, b, c, d, e, f];
    assert [a, b, c, d, e, f] + [g] == [a, b, c, d, e, f, g];
    assert "" + a == a;
  }

  lemma {:induction false} PiecesInOrder(g: Syntax, t: Texts)
    ensures Flatten(Pieces(g, t))
         == (g.header + t.sections + g.xref + t.count + "\n" + g.free + t.entries) +
            (g.trailer + t.count + g.root + t.root + g.startxref + t.xref + g.eof)
  {
    var front := [g.header, t.sections, g.xref, t.count, "\n", g.free, t.entries];
    var back := [g.trailer, t.count, g.root, t.root, g.startxref, t.xref, g.eof];
    assert Pieces(g, t) == front + back;
    FlattenConcat(front, back);
    FlattenSeven(g.header, t.sections, g.xref, t.count, "\n", g.free, t.entries);
    FlattenSeven(g.trailer, t.count, g.root, t.root, g.startxref, t.xref, g.eof);
  }
}
