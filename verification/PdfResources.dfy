/** Looking the names in a page's content up in the page's resources (sections 7.8.3 and 9.6 of
    ISO 32000-1): fonts and pictures. */
module PdfResources {
  import opened Wrappers
  import opened Text
  import opened PdfFormat
  import opened PdfScan
  import opened PdfPages

  /** The object that the first entry for `key` refers to; the key ends in a space. */
  function Lookup(body: string, key: string): Option<nat>
  {
    var i :- Find(body, key, 0);
    var rest := body[i + |key|..];
    var (id, j) :- ReadNumber(rest, 0);
    if At(rest, REF, j) then Some(id) else None
  }

  /** The name of a font object's base font. */
  function FaceOf(body: string): Option<string>
  {
    var i :- Find(body, "/BaseFont /", 0);
    var rest := body[i + 11..];
    var j :- Find(rest, " ", 0);
    Some(rest[..j])
  }

  // ---------- finding an entry ----------

  lemma {:induction false} EntryLookup(key: string, digits: string, tail: string)
    requires Number(digits)
    ensures Lookup(key + digits + REF + tail, key) == Some(Value(digits))
  {
    var body, rest := key + digits + REF + tail, digits + REF + tail;
    assert body[0..|key|] == key && OccursAt(body, key, 0);
    assert body[|key|..] == rest;
    ThreeParts(digits, REF, tail);
    assert rest[|digits| + 0] == REF[0];
    ReadNumberAt(rest, 0, digits);
  }

  /** Nothing of the key begins in `front`. */
  ghost predicate Before(front: string, rest: string, key: string)
  {
    forall j :: 0 <= j < |front| ==> !OccursAt(front + rest, key, j)
  }

  lemma {:induction false} LookupBehind(front: string, rest: string, key: string)
    requires Before(front, rest, key)
    ensures Lookup(front + rest, key) == Lookup(rest, key)
  {
    var body := front + rest;
    match Find(rest, key, 0)
    case None =>
      forall j: nat ensures !OccursAt(body, key, j) {
        if j >= |front| {
          OccursBehind(front, rest, key, j - |front|);
        }
      }
    case Some(i) =>
      OccursBehind(front, rest, key, i);
      forall j | |front| <= j < |front| + i ensures !OccursAt(body, key, j) {
        OccursBehind(front, rest, key, j - |front|);
      }
      assert Find(body, key, 0) == Some(|front| + i);
      assert body[|front| + i + |key|..] == rest[i + |key|..];
  }

  lemma {:induction false} OccursBehind(front: string, rest: string, key: string, j: nat)
    ensures OccursAt(front + rest, key, |front| + j) <==> OccursAt(rest, key, j)
  {
    if j + |key| <= |rest| {
      assert (front + rest)[|front| + j..|front| + j + |key|] == rest[j..j + |key|];
    }
  }

  // ---------- pictures ----------

  function ImageKey(k: nat): string
  {
    "/Im" + Dec(k) + " "
  }

  /** Two keys that begin at the same place are the same. */
  lemma {:induction false} KeysDiffer(a: nat, b: nat, tail: string)
    ensures OccursAt(ImageKey(a) + tail, ImageKey(b), 0) ==> a == b
  {
    var s := ImageKey(a) + tail;
    NumberInKey(s, "/Im", Dec(a), tail);
    if OccursAt(s, ImageKey(b), 0) {
      assert s == ImageKey(b) + s[|ImageKey(b)|..];
      NumberInKey(s, "/Im", Dec(b), s[|ImageKey(b)|..]);
    }
  }

  lemma {:induction false} NumberInKey(s: string, prefix: string, digits: string, tail: string)
    requires Number(digits) && s == prefix + digits + " " + tail
    ensures ReadNumber(s, |prefix|) == Some((Value(digits), |prefix| + |digits|))
  {
    assert forall k :: 0 <= k < |digits| ==> s[|prefix| + k] == digits[k];
    assert s[|prefix| + |digits|] == ' ';
    ReadNumberAt(s, |prefix|, digits);
  }

  /** An entry of the dictionary of pictures. */
  function ImageEntry(k: nat, id: nat): string
  {
    ImageKey(k) + Dec(id) + REF + " "
  }

  lemma {:induction false} OneSlash(digits: string, id: string)
    requires AllDigits(digits) && AllDigits(id)
    ensures var e := "/Im" + digits + " " + id + REF + " ";
            forall j :: 0 < j < |e| ==> e[j] != '/'
  {
  }

  lemma {:induction false} OtherEntry(k: nat, id: nat, rest: string, other: nat)
    requires k != other
    ensures Before(ImageEntry(k, id), rest, ImageKey(other))
  {
    var e, key := ImageEntry(k, id), ImageKey(other);
    OneSlash(Dec(k), Dec(id));
    forall j | 0 <= j < |e| ensures !OccursAt(e + rest, key, j) {
      OccursChar(e + rest, key, j, 0);
      assert (e + rest)[j] == e[j];
      if j == 0 {
        EntryBegins(k, id, rest);
        KeysDiffer(k, other, Dec(id) + REF + " " + rest);
      }
    }
  }

  lemma {:induction false} EntryBegins(k: nat, id: nat, rest: string)
    ensures ImageEntry(k, id) + rest == ImageKey(k) + (Dec(id) + REF + " " + rest)
  {
  }

  lemma {:induction false} OwnEntry(k: nat, id: nat, rest: string)
    ensures Lookup(ImageEntry(k, id) + rest, ImageKey(k)) == Some(id)
  {
    EntryLookup(ImageKey(k), Dec(id), " " + rest);
    EntryInParts(ImageKey(k), Dec(id), REF, rest);
  }

  lemma {:induction false} EntryInParts(key: string, digits: string, ref: string, rest: string)
    ensures key + digits + ref + " " + rest == key + digits + ref + (" " + rest)
  {
  }

  /** Every picture's name leads to its own object. */
  lemma {:induction false} ImageLookup(ids: seq<nat>, from: nat, k: nat, tail: string)
    requires from <= k < |ids|
    ensures Lookup(XObjects(ids, from) + tail, ImageKey(k)) == Some(ids[k])
    decreases k - from
  {
    var rest := XObjects(ids, from + 1) + tail;
    FirstEntry(ids, from, tail);
    if k == from {
      OwnEntry(k, ids[k], rest);
    } else {
      ImageLookup(ids, from + 1, k, tail);
      OtherEntry(from, ids[from], rest, k);
      LookupBehind(ImageEntry(from, ids[from]), rest, ImageKey(k));
    }
  }

  lemma {:induction false} FirstEntry(ids: seq<nat>, from: nat, tail: string)
    requires from < |ids|
    ensures XObjects(ids, from) + tail == ImageEntry(from, ids[from]) + (XObjects(ids, from + 1) + tail)
  {
    var a, b, c := "/Im" + Dec(from) + " ", Dec(ids[from]), XObjects(ids, from + 1);
    assert Ref(ids[from]) == b + REF;
    assert a + (b + REF) + " " + c + tail == a + b + REF + " " + (c + tail);
  }

  // ---------- the whole page object ----------

  /** A text in which no key for a picture begins. */
  lemma {:induction false} NoImageBefore(front: string, rest: string, k: nat)
    requires 'I' !in front && front != "" && front[|front| - 1] != '/'
    ensures Before(front, rest, ImageKey(k))
  {
    var s, key := front + rest, ImageKey(k);
    assert key[0] == '/' && key[1] == 'I';
    forall j | 0 <= j < |front| ensures !OccursAt(s, key, j) {
      OccursChar(s, key, j, 0);
      OccursChar(s, key, j, 1);
      assert s[j] == front[j];
      if j + 1 < |front| {
        assert s[j + 1] == front[j + 1];
      }
    }
  }

  lemma {:induction false} DigitsLackLetters(n: nat)
    ensures 'I' !in Dec(n) && 'F' !in Dec(n)
  {
  }

  /** What stands in front of the dictionary of pictures. */
  function ImageFront(pagesId: nat, font: nat, bold: nat): string
  {
    PAGE + (PARENT_KEY + Ref(pagesId)) + (MEDIA_BOX + ("<< /Font << /F1 " + Ref(font) + " /F2 " + Ref(bold) + " >>"))
    + " /XObject << "
  }

  lemma {:induction false} FrontLacksI(a: string, b: string, c: string)
    requires 'I' !in a && 'I' !in b && 'I' !in c
    ensures var front := PAGE + (PARENT_KEY + (a + REF))
                         + (MEDIA_BOX + ("<< /Font << /F1 " + (b + REF) + " /F2 " + (c + REF) + " >>"))
                         + " /XObject << ";
            'I' !in front && front != "" && front[|front| - 1] == ' '
  {
    assert 'I' !in PAGE && 'I' !in PARENT_KEY && 'I' !in REF && 'I' !in MEDIA_BOX;
    assert 'I' !in "<< /Font << /F1 " && 'I' !in " /F2 " && 'I' !in " >>" && 'I' !in " /XObject << ";
  }

  /** In a finished page object, every picture's name leads to its own object. */
  lemma {:induction false} PageImageLookup(pagesId: nat, font: nat, bold: nat, ids: seq<nat>, content: nat, k: nat)
    requires k < |ids|
    ensures Lookup(PageBody(PARENT_KEY + Ref(pagesId), Resources(font, bold, ids), content), ImageKey(k))
         == Some(ids[k])
  {
    var tail := " >>" + " >>" + (CONTENTS + Dec(content) + REF_END);
    var front := ImageFront(pagesId, font, bold);
    DigitsLackLetters(pagesId);
    DigitsLackLetters(font);
    DigitsLackLetters(bold);
    FrontLacksI(Dec(pagesId), Dec(font), Dec(bold));
    FirstEntry(ids, 0, "");
    assert XObjects(ids, 0) != "" by {
      assert XObjects(ids, 0) + "" == XObjects(ids, 0);
    }
    PageInParts(PAGE + (PARENT_KEY + Ref(pagesId)), MEDIA_BOX,
                "<< /Font << /F1 " + Ref(font) + " /F2 " + Ref(bold) + " >>", " /XObject << ", XObjects(ids, 0), " >>",
                " >>", CONTENTS, Dec(content), REF_END);
    NoImageBefore(front, XObjects(ids, 0) + tail, k);
    LookupBehind(front, XObjects(ids, 0) + tail, ImageKey(k));
    ImageLookup(ids, 0, k, tail);
  }

  lemma {:induction false} PageInParts(a: string, b: string, c: string, d: string, e: string, f: string, g: string,
                                       h: string, i: string, j: string)
    ensures a + (b + (c + (d + e + f) + g) + h + i + j) == (a + (b + c) + d) + (e + (f + g + (h + i + j)))
  {
  }

  // ---------- fonts ----------

  lemma {:induction false} FontBefore(a: string, font: string, rest: string, key: string)
    requires 'F' !in a && font == "/Font << " && |key| >= 3 && key[0] == '/' && key[1] == 'F' && key[2] != 'o'
    requires a != "" && a[|a| - 1] != '/'
    ensures Before(a + font, rest, key)
  {
    var front := a + font;
    var s := front + rest;
    forall j | 0 <= j < |front| ensures !OccursAt(s, key, j) {
      OccursChar(s, key, j, 0);
      OccursChar(s, key, j, 1);
      OccursChar(s, key, j, 2);
      if j + 1 < |a| {
        assert s[j + 1] == a[j + 1];
      } else if j + 1 == |a| {
        assert s[j] == a[j];
      } else {
        OnlySlash(j - |a|);
        assert s[j] == font[j - |a|];
        assert j == |a| ==> s[j + 2] == font[2];
      }
    }
  }

  lemma {:induction false} OnlySlash(k: nat)
    requires k < |"/Font << "|
    ensures "/Font << "[k] == '/' ==> k == 0
    ensures "/Font << "[2] == 'o' && |"/Font << "| == 9
  {
    var font := "/Font << ";
    assert font[1] == 'F' && font[2] == 'o' && font[3] == 'n' && font[4] == 't' && font[5] == ' ' && font[6] == '<'
           && font[7] == '<' && font[8] == ' ';
  }

  /** The entry of another font. */
  lemma {:induction false} FontEntryBefore(digits: string, rest: string, key: string)
    requires AllDigits(digits) && |key| >= 3 && key[0] == '/' && key[2] == '2'
    ensures Before("/F1 " + digits + REF + " ", rest, key)
  {
    var front := "/F1 " + digits + REF + " ";
    var s := front + rest;
    forall j | 0 <= j < |front| ensures !OccursAt(s, key, j) {
      OccursChar(s, key, j, 0);
      OccursChar(s, key, j, 2);
      assert s[j] == front[j];
      assert j > 0 ==> front[j] != '/';
      assert s[2] == '1';
    }
  }

  /** In a finished page object, /F1 and /F2 lead to their font objects. */
  lemma {:induction false} PageFontLookup(pagesId: nat, font: nat, bold: nat, ids: seq<nat>, content: nat)
    ensures var body := PageBody(PARENT_KEY + Ref(pagesId), Resources(font, bold, ids), content);
            Lookup(body, "/F1 ") == Some(font) && Lookup(body, "/F2 ") == Some(bold)
  {
    var a := PAGE + (PARENT_KEY + Ref(pagesId)) + (MEDIA_BOX + "<< ");
    var xobjects := XObjects(ids, 0);
    var more := " >>" + (if xobjects == "" then "" else " /XObject << " + xobjects + " >>") + " >>"
                + (CONTENTS + Dec(content) + REF_END);
    DigitsLackLetters(pagesId);
    FontFront(Dec(pagesId));
    FontsInParts(PAGE + (PARENT_KEY + Ref(pagesId)), MEDIA_BOX, Dec(font), Dec(bold),
                 if xobjects == "" then "" else " /XObject << " + xobjects + " >>", CONTENTS, Dec(content), REF_END);
    FontEntries(a, Dec(font), Dec(bold), more);
  }

  lemma {:induction false} FontFront(digits: string)
    requires 'F' !in digits
    ensures var a := PAGE + (PARENT_KEY + (digits + REF)) + (MEDIA_BOX + "<< ");
            'F' !in a && a != "" && a[|a| - 1] == ' '
  {
    assert 'F' !in PAGE && 'F' !in PARENT_KEY && 'F' !in REF && 'F' !in MEDIA_BOX && 'F' !in "<< ";
  }

  lemma {:induction false} FontEntries(a: string, font: string, bold: string, more: string)
    requires 'F' !in a && a != "" && a[|a| - 1] == ' ' && Number(font) && Number(bold)
    ensures var body := a + "/Font << " + ("/F1 " + font + REF + " " + ("/F2 " + bold + REF + more));
            Lookup(body, "/F1 ") == Some(Value(font)) && Lookup(body, "/F2 ") == Some(Value(bold))
  {
    var second := "/F2 " + bold + REF + more;
    var rest := "/F1 " + font + REF + " " + second;
    FontBefore(a, "/Font << ", rest, "/F1 ");
    LookupBehind(a + "/Font << ", rest, "/F1 ");
    EntryLookup("/F1 ", font, " " + second);
    assert "/F1 " + font + REF + (" " + second) == rest;
    FontBefore(a, "/Font << ", rest, "/F2 ");
    LookupBehind(a + "/Font << ", rest, "/F2 ");
    FontEntryBefore(font, second, "/F2 ");
    LookupBehind("/F1 " + font + REF + " ", second, "/F2 ");
    EntryLookup("/F2 ", bold, more);
  }

  lemma {:induction false} FontsInParts(a: string, b: string, font: string, bold: string, x: string, h: string,
                                        i: string, j: string)
    ensures a + (b + ("<< /Font << /F1 " + (font + REF) + " /F2 " + (bold + REF) + " >>" + x + " >>") + h + i + j)
         == (a + (b + "<< ")) + "/Font << "
            + ("/F1 " + font + REF + " " + ("/F2 " + bold + REF + (" >>" + x + " >>" + (h + i + j))))
  {
  }

  // ---------- font objects ----------

  lemma {:induction false} FaceReads(front: string, name: string)
    requires Before(front, "/BaseFont /" + name + " >>", "/BaseFont /") && ' ' !in name
    ensures FaceOf(front + ("/BaseFont /" + name + " >>")) == Some(name)
  {
    var key := "/BaseFont /";
    var rest := key + name + " >>";
    var body := front + rest;
    OccursBehind(front, rest, key, 0);
    assert rest[..11] == key && |key| == 11;
    assert Find(body, key, 0) == Some(|front|);
    assert body[|front| + 11..] == name + " >>";
    UpToSpace(name, " >>");
  }

  lemma {:induction false} UpToSpace(name: string, tail: string)
    requires ' ' !in name && tail != "" && tail[0] == ' '
    ensures Find(name + tail, " ", 0) == Some(|name|) && (name + tail)[..|name|] == name
  {
    var s := name + tail;
    assert s[|name|..|name| + 1] == " " && OccursAt(s, " ", |name|);
    forall j | 0 <= j < |name| ensures !OccursAt(s, " ", j) {
      OccursChar(s, " ", j, 0);
      assert s[j] == name[j];
    }
  }

  lemma {:induction false} FaceBehind(front: string, name: string)
    requires 'B' !in front && front != "" && front[|front| - 1] == ' ' && ' ' !in name
    ensures FaceOf(front + ("/BaseFont /" + name + " >>")) == Some(name)
  {
    NoBaseFont(front, "/BaseFont /" + name + " >>");
    FaceReads(front, name);
  }

  const TYPE1 := "<< /Type /Font /Subtype /Type1 "

  /** The two font objects name Helvetica and its bold face. */
  lemma {:induction false} FacesRead()
    ensures FaceOf(FONT) == Some("Helvetica") && FaceOf(FONT_BOLD) == Some("Helvetica-Bold")
  {
    FaceBehind(TYPE1, "Helvetica");
    FaceBehind(TYPE1, "Helvetica-Bold");
    PlainFont();
    BoldFont();
  }

  lemma {:induction false} PlainFont()
    ensures FONT == TYPE1 + ("/BaseFont /" + "Helvetica" + " >>")
  {
  }

  lemma {:induction false} BoldFont()
    ensures FONT_BOLD == TYPE1 + ("/BaseFont /" + "Helvetica-Bold" + " >>")
  {
  }

  lemma {:induction false} NoBaseFont(front: string, rest: string)
    requires 'B' !in front && front != "" && front[|front| - 1] == ' '
    ensures Before(front, rest, "/BaseFont /")
  {
    var s, key := front + rest, "/BaseFont /";
    forall j | 0 <= j < |front| ensures !OccursAt(s, key, j) {
      OccursChar(s, key, j, 0);
      OccursChar(s, key, j, 1);
      assert s[j] == front[j];
      if j + 1 < |front| {
        assert s[j + 1] == front[j + 1];
      }
    }
  }
}
