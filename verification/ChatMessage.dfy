/** The persisted answer of a completed run, which is all that a resumed conversation has: reading it back into
    the narrative and the picture, and when that works. */
module ChatMessage {
  import opened Wrappers
  import S = Text
  import opened ChatPipeline

  const MARK := "\n\n![chart](data:"
  const BASE64 := ";base64,"

  /** A text, and the media type and the encoded data of the picture behind it. */
  datatype Message = Message(text: string, picture: Option<(string, string)>)

  /** The last occurrence of `p` at or before i. */
  function FindBack(s: string, p: string, i: nat): (r: Option<nat>)
    ensures r.Some? ==> r.value <= i && S.OccursAt(s, p, r.value)
    ensures forall j :: (if r.Some? then r.value + 1 else 0) <= j <= i ==> !S.OccursAt(s, p, j)
  {
    if S.OccursAt(s, p, i) then Some(i) else if i == 0 then None else FindBack(s, p, i - 1)
  }

  /** The media type and the data in the part behind the mark, which ends in a parenthesis. */
  function ReadPicture(rest: string): Option<(string, string)>
  {
    var i :- S.Find(rest, BASE64, 0);
    if i + |BASE64| < |rest| && rest[|rest| - 1] == ')' then Some((rest[..i], rest[i + |BASE64|..|rest| - 1])) else None
  }

  /** What stands in front of the last mark, and the picture behind it. */
  function ReadMessage(content: string): Message
  {
    match FindBack(content, MARK, |content|)
    case None => Message(content, None)
    case Some(k) => Message(content[..k], ReadPicture(content[k + |MARK|..]))
  }

  predicate Unmarked(s: string)
  {
    S.Find(s, MARK, 0).None?
  }

  /** The narrative, or the default text if there is none. */
  function Told(n: NarrativeOutput): string
  {
    match n.text
    case Some(text) => if text == "" then "Here's what I found." else text
    case None => "Here's what I found."
  }

  /** The rendered SVG if there is one, encoded; otherwise the image if there is one. */
  function Pictured(c: ChartOutput, base64: string -> string): Option<(string, string)>
  {
    if c.svg.Some? && c.svg.value != "" then Some(("image/svg+xml", base64(c.svg.value)))
    else if c.image.Some? && c.image.value != "" then Some(("image/png", c.image.value))
    else None
  }

  /** The content begins with the narrative, is nothing else if there is no picture, and is read back as both,
      exactly if the mark is not in the data of the picture or, if there is none, in the narrative. */
  ghost predicate Carries(content: string, n: NarrativeOutput, c: ChartOutput, base64: string -> string)
  {
    var text, picture := Told(n), Pictured(c, base64);
    text <= content && (picture.None? ==> content == text)
    && (ReadMessage(content) == Message(text, picture)
        <==> if picture.Some? then Unmarked(picture.value.1) else Unmarked(text))
  }

  // ---------- the mark in a text ----------

  lemma {:induction false} MarkShape()
    ensures |MARK| == 16 && MARK[0] == '\n' && MARK[1] == '\n' && MARK[2] == '!'
    ensures forall k :: 2 <= k < 16 ==> MARK[k] != '\n'
    ensures ')' in MARK ==> MARK[9] == ')'
  {
  }

  lemma {:induction false} MarkBegins(s: string, j: int)
    ensures S.OccursAt(s, MARK, j) ==> s[j] == '\n' && s[j + 1] == '\n'
  {
    MarkShape();
    S.OccursChar(s, MARK, j, 0);
    S.OccursChar(s, MARK, j, 1);
  }

  /** No mark begins behind the first character of the mark itself, or in the media type. */
  lemma {:induction false} NoMarkWithin(text: string, media: string, rest: string, j: nat)
    requires '\n' !in media && |text| < j < |text| + |MARK| + |media|
    ensures !S.OccursAt(text + MARK + media + rest, MARK, j)
  {
    var s := text + MARK + media + rest;
    MarkShape();
    MarkBegins(s, j);
    assert forall k :: 0 <= k < 16 ==> s[|text| + k] == MARK[k];
    assert forall k :: 0 <= k < |media| ==> s[|text| + 16 + k] == media[k];
    if j == |text| + 1 {
      assert s[|text| + 2] == MARK[2];
    } else if j < |text| + 16 {
      assert s[j] == MARK[j - |text|];
    } else {
      assert s[j] == media[j - |text| - 16];
    }
  }

  /** Behind a front, the mark occurs where it occurs in the data: it does not reach the last parenthesis. */
  lemma {:induction false} MarkInData(front: string, data: string, j: nat)
    ensures S.OccursAt(front + data + ")", MARK, |front| + j) <==> S.OccursAt(data, MARK, j)
  {
    var s := front + data + ")";
    MarkShape();
    if j + 16 <= |data| {
      assert s[|front| + j..|front| + j + 16] == data[j..j + 16];
    } else if j + 16 == |data| + 1 {
      S.OccursChar(s, MARK, |front| + j, 15);
      assert s[|front| + |data|] == ')' && MARK[15] == ':';
    }
  }

  /** A content with a picture. */
  function Embedded(text: string, media: string, data: string): string
  {
    text + MARK + (media + BASE64) + data + ")"
  }

  lemma {:induction false} OwnMark(text: string, media: string, data: string)
    ensures S.OccursAt(Embedded(text, media, data), MARK, |text|)
  {
    var s := Embedded(text, media, data);
    assert s[|text|..|text| + |MARK|] == MARK;
  }

  lemma {:induction false} PartsOf(text: string, media: string, data: string)
    ensures Embedded(text, media, data) == text + MARK + (media + BASE64) + (data + ")")
    ensures Embedded(text, media, data) == (text + MARK + (media + BASE64)) + data + ")"
    ensures Embedded(text, media, data)[|text| + |MARK|..] == media + BASE64 + (data + ")")
    ensures Embedded(text, media, data)[..|text|] == text
  {
  }

  /** With data that do not hold the mark, the last mark is the one in front of the picture. */
  lemma {:induction false} LastMark(text: string, media: string, data: string)
    requires '\n' !in media && Unmarked(data)
    ensures FindBack(Embedded(text, media, data), MARK, |Embedded(text, media, data)|) == Some(|text|)
  {
    var s := Embedded(text, media, data);
    OwnMark(text, media, data);
    PartsOf(text, media, data);
    assert '\n' !in BASE64;
    forall j | |text| < j <= |s| ensures !S.OccursAt(s, MARK, j) {
      var n := |text| + |MARK| + |media + BASE64|;
      if j < n {
        NoMarkWithin(text, media + BASE64, data + ")", j);
      } else {
        MarkInData(text + MARK + (media + BASE64), data, j - n);
      }
    }
  }

  /** A mark in the data comes later. */
  lemma {:induction false} LaterMark(text: string, media: string, data: string)
    requires !Unmarked(data)
    ensures var k := FindBack(Embedded(text, media, data), MARK, |Embedded(text, media, data)|);
            k.Some? && k.value > |text|
  {
    PartsOf(text, media, data);
    MarkInData(text + MARK + (media + BASE64), data, S.Find(data, MARK, 0).value);
  }

  lemma {:induction false} PictureReads(media: string, data: string)
    requires ';' !in media
    ensures ReadPicture(media + BASE64 + (data + ")")) == Some((media, data))
  {
    var rest := media + BASE64 + (data + ")");
    assert rest[|media|..|media| + |BASE64|] == BASE64 && S.OccursAt(rest, BASE64, |media|);
    forall j | 0 <= j < |media| ensures !S.OccursAt(rest, BASE64, j) {
      S.OccursChar(rest, BASE64, j, 0);
      assert rest[j] == media[j];
    }
    assert S.Find(rest, BASE64, 0) == Some(|media|);
    assert rest[..|media|] == media && rest[|media| + |BASE64|..|rest| - 1] == data;
  }

  lemma {:induction false} EmbeddedReads(text: string, media: string, data: string)
    requires '\n' !in media && ';' !in media
    ensures ReadMessage(Embedded(text, media, data)) == Message(text, Some((media, data))) <==> Unmarked(data)
  {
    PartsOf(text, media, data);
    if Unmarked(data) {
      LastMark(text, media, data);
      PictureReads(media, data);
    } else {
      LaterMark(text, media, data);
    }
  }

  lemma {:induction false} PlainReads(text: string)
    ensures ReadMessage(text) == Message(text, None) <==> Unmarked(text)
  {
    if !Unmarked(text) {
      assert S.OccursAt(text, MARK, S.Find(text, MARK, 0).value);
    }
  }

  /** Whatever the narrative and the chart: the persisted content carries both. */
  lemma {:induction false} ContentCarries(n: NarrativeOutput, c: ChartOutput, base64: string -> string)
    ensures Carries(Content(n, c, base64), n, c, base64)
  {
    var text, content, picture := Told(n), Content(n, c, base64), Pictured(c, base64);
    if picture.None? {
      PlainReads(text);
    } else {
      MediaAreClean();
      EmbeddedReads(text, picture.value.0, picture.value.1);
      ContentIsEmbedded(n, c, base64);
      PartsOf(text, picture.value.0, picture.value.1);
    }
  }

  lemma {:induction false} MediaAreClean()
    ensures '\n' !in "image/svg+xml" && ';' !in "image/svg+xml" && '\n' !in "image/png" && ';' !in "image/png"
  {
  }

  lemma {:induction false} ContentIsEmbedded(n: NarrativeOutput, c: ChartOutput, base64: string -> string)
    requires Pictured(c, base64).Some?
    ensures Content(n, c, base64)
         == Embedded(Told(n), Pictured(c, base64).value.0, Pictured(c, base64).value.1)
  {
    var text, data := Told(n), Pictured(c, base64).value.1;
    SvgLiteral();
    PngLiteral();
    Regroup(text, MARK, "image/svg+xml" + BASE64, data);
    Regroup(text, MARK, "image/png" + BASE64, data);
  }

  lemma {:induction false} SvgLiteral()
    ensures MARK + ("image/svg+xml" + BASE64) == "\n\n![chart](data:image/svg+xml;base64,"
  {
  }

  lemma {:induction false} PngLiteral()
    ensures MARK + ("image/png" + BASE64) == "\n\n![chart](data:image/png;base64,"
  {
  }

  lemma {:induction false} Regroup(a: string, b: string, c: string, d: string)
    ensures a + (b + c) + d + ")" == a + b + c + d + ")"
  {
  }

  /** A narrative that ends in a mark, without a picture, is cut off there. */
  lemma {:induction false} MarkInNarrativeIsLost(n: NarrativeOutput, base64: string -> string)
    requires n.text == Some("Up 3%" + MARK)
    ensures ReadMessage(Content(n, ChartOutput(None, None, None, []), base64)).text != "Up 3%" + MARK
  {
    var text := "Up 3%" + MARK;
    assert text[5..5 + |MARK|] == MARK;
    assert S.OccursAt(text, MARK, 5);
    PlainReads(text);
    assert FindBack(text, MARK, |text|).Some?;
  }
}
