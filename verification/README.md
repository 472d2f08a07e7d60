# A verified model of GenBI's self-contained algorithms and state machines

GenBI is mostly glue around databases and language models. This project models the parts of it that
are algorithms or protocols of their own, follows their branches and constants, and proves what they
promise on all inputs and over all runs.

* **Report PDF** (`Text`, `Wrappers`, `GreedyPacking`, `WordWrap`, `Bytes`, `PngFilter`, `PngDecode`,
  `PngStandard`, `PdfString`, `PdfFormat`, `PdfScan`, `PdfReader`, `PdfReadback`, `PdfPages`, `PdfDrawing`,
  `PdfBuilder`, `PdfDocument`, `PdfImages`, `PdfPictures`, `PdfGraphics`, `PdfResources`, `PdfShapes`,
  `ReportLayout`, `ReportContent`, `PdfPlaceholder`, `ReportPdf`, `ReportFile`, `LineEndings`): the PNG decoder,
  the PDF writer, the word wrapper and the page layout. Each has an independent partner: the equations and a
  writer of the W3C PNG Specification (sections 5.3 and 9.2), a wrapping measure that counts characters, and a
  PDF reader after sections 7.3.4.2, 7.5, 7.7, 7.8 and 8.9.5 of ISO 32000-1 that starts at the last byte of the
  file. The main result goes the whole way: a report is laid out, printed, written, and the reader gets its
  title, metrics, narratives, pictures and warnings back, in order, with places, sizes, faces and shades.
* **Wiki** (`Chunking`, `WikiPages`, `WikiSaves`): the paragraph chunker, which shares its greedy argument with
  the word wrapper, and pages with append-only revisions.
* **Control plane** (`LruCache`, `TwoTier`, `ControlPlane`, `LlmResolver`, `LlmHistory`): the LRU cache, the
  two-tier cache of every worker, and all runs of any number of workers that check and write tenant status,
  admin grants and LLM configurations. The shared tier may be unreachable for any worker at any time.
* **Chat** (`EventStream`, `ChatPipeline`, `ChatMessage`, `ChatEndings`, `ChatService`, `ChatHistory`,
  `QueryKey`): the event stream's framing and its incremental reader, the question pipeline in its two forms,
  what each ending of it persists and answers, the query cache and its key, and what the browser's schema lets
  through and what it strips.
* **Others** (`Scheduler`, `TenantUsers`, `UserHistory`, `VisFlint`, `VisShown`): report schedules, tenant
  users, chart blocks in markdown.

Code that updates objects is a class whose methods are proved against functions on the object's state;
loops are loops. The lemmas are about those functions, and say what they do in terms of the inputs' own fields,
literal texts and numbers, or of an independent reader.

## Where the code does not do what it says

Each of these has its exact condition, a concrete input, or both.

* Revocation and suspension are documented to bind within 60 seconds
  (`docs/api-reference.md`, `docs/api/openapi.yaml`, comment in `backend/app/core/cache.py`). They do exactly
  when the writer reaches Redis; otherwise a stale value can be promoted as it expires, and the exact
  bound is 120 seconds (`ControlPlane.BoundIsExact`).
* `resolver.py` promises platform defaults to tenants without a configuration. Loading evaluates the
  encryption key first, so without a key every resolution fails
  (`LlmResolver.UnconfiguredTenantNeedsKey`). A configuration that is deleted and saved again restarts at
  version 1. A worker then gets over the write exactly if it remembers nothing else under that version
  (`LlmResolver.RightAfterExactly`); otherwise it can use the old key for ever
  (`LlmResolver.RecreatedIsStaleForEver`).
* The browser's schema makes chart fields optional but not nullable, and the server prints missing ones
  as null. The renderer yields one picture format at a time, so the browser never sees a chart event
  (`ChatHistory.SchemaTakesExactly`, `ChatHistory.OneRenderingIsLost`). The schema does not name the
  `query` of the start event, so that one event arrives without it (`ChatHistory.OnlyStartIsStripped`).
* On an empty result the one pipeline stops with "no data" and the other goes on
  (`ChatPipeline.TurnsAgreeExactly`, `ChatPipeline.EmptyResultDiverges`).
* The query cache's key ignores case and the number of blanks, inside quotes too. It is harmless exactly
  for data sources that ignore both (`QueryKey.CacheIsExactly`); two queries that get each other's rows
  are in `QueryKey.OpenOrdersAreConfused`.
* An image's `/Length` is the size before compression, so it is exact only if compression leaves the size as it
  was (`PdfPictures.DeclaredLengthIsExact`). Readers that look for `endstream` find everything
  (`PdfPictures.FilePictures`).
* A persisted chat turn embeds the chart behind a mark in its text, and is read back exactly if the data do not
  hold that mark and a turn without a picture does not look like one (`ChatMessage.ContentCarries`); a narrative
  that ends like one is cut (`ChatMessage.MarkInNarrativeIsLost`).
* The text of the parent placeholder inside a page is patched like the real one, and offsets from 10^10
  on break the table (`PdfDocument.FileReadsBack`, `PdfDocument.PlaceholderPageIsLost`,
  `PdfReadback.LongFileIsUnreadable`). Compressed image data that happens to hold the placeholder is patched
  too (`PdfImages.ImagesSurviveExactly`).
* A carriage return that is drawn reads back as a line feed, and a report reads back exactly if none is
  (`PdfString.TextReadsBack`, `ReportPdf.ReportReadsBack`). Inside a word it always is
  (`LineEndings.ReturnInWordIsLost`). At the end of a line it is stripped, unless the line's last word is put
  on a line of its own (`LineEndings.WindowsReportReadsBack`, `LineEndings.LastWordKeepsReturn`).
* Restoring a wiki page forgets its parent (`WikiPages.RestoreKeepsParentExactly`), and re-embedding never
  completes a page that has some of its chunks (`WikiPages.ReconcileHealsExactly`).

## Model

| member | source | states |
|---|---|---|
| GreedyPacking.GreedyIsOptimal | backend/app/services/report_pdf.py:42-50 | No division of the items into consecutive groups that are within the limit or hold one item has fewer groups than greedy filling; proved once for words and paragraphs |
| GreedyPacking.PackIsPacking | backend/app/services/report_pdf.py:42-50 | Greedy filling is itself such a division |
| WordWrap.Wrap | backend/app/services/report_pdf.py:36-51 | The nested loops compute the wrapped lines that the lemmas below are about |
| WordWrap.WrapKeepsInk | backend/app/services/report_pdf.py:36-51 | For every text, wrapping loses, adds and reorders no visible character |
| WordWrap.WrapLineFits | backend/app/services/report_pdf.py:44-50 | For every line, what overflows the width, counting half the size per character less 0.22 of it for each narrow one, is a single word of the input |
| WordWrap.WidthByCount | backend/app/services/report_pdf.py:22-24 | The width of a line is 50 hundredths of the size per character, less 22 for each of the narrow characters, which are listed |
| WordWrap.WrappedFits | backend/app/services/report_pdf.py:36-51 | For every text, a wrapped line with a space in it does not overflow by that measure |
| WordWrap.BreaksAreForced | backend/app/services/report_pdf.py:42-50 | For every line, wherever it is broken, the line before the break and the next word together would have overflowed |
| WordWrap.WrapIsLossless | backend/app/services/report_pdf.py:40-50 | A line of non-empty words separated by single spaces is its wrapped lines joined by spaces |
| WordWrap.WrapIsBreak | backend/app/services/report_pdf.py:40-50 | The wrapped lines are a break of the line into lines that do not overflow by that measure, or are one word |
| WordWrap.WrapIsOptimal | backend/app/services/report_pdf.py:40-50 | No such break has fewer lines |
| WordWrap.EmptyWord | backend/app/services/report_pdf.py:42-49 | A second space in a row vanishes unless the current line is an overflowing word, which it closes |
| WordWrap.TrailingSpaceAddsEmptyLine | backend/app/services/report_pdf.py:42-50 | An overflowing word with a space behind it costs an extra, empty line |
| PngFilter.Paeth | backend/app/services/report_pdf.py:63-70 | The predictor is the one of left, above and upper left that is nearest to left + above - upper left, ties in that order |
| PngFilter.SumsAreMod256 | backend/app/services/report_pdf.py:125-139 | The byte sums of the filters are the sums modulo 256 of section 9.2 of the PNG Specification |
| PngFilter.UnfilterUndoesFilter | backend/app/services/report_pdf.py:125-139 | Unfiltering inverts filtering for every filter type, row, predecessor and pixel size |
| PngFilter.FilterUndoesUnfilter | backend/app/services/report_pdf.py:125-139 | And filtering inverts unfiltering |
| PngFilter.UnfilterRow | backend/app/services/report_pdf.py:125-139 | The in-place loops over the row's bytes give the row that the two lemmas above speak of, and say when they would read out of range |
| PngFilter.UnfilterImage | backend/app/services/report_pdf.py:116-141 | The row loop over arrays computes the decoding of the whole image, or its failure on short data |
| PngFilter.DecoderUndoesEncoder | backend/app/services/report_pdf.py:116-141 | For every image and every choice of a filter per row, the row loop gives back the exact bytes |
| PngStandard.RowIsReconstruction | backend/app/services/report_pdf.py:116-139 | A row is what the decoder makes of a line exactly if every byte satisfies the equation of its filter type in section 9.2 of the PNG Specification, with zeroes left of the first pixel |
| PngStandard.FileDecodes | backend/app/services/report_pdf.py:73-147 | A file of any size, color type, filter choice and chunking whose data are the lines of an image is decoded to the samples of that image, gray with alpha to every other one, whatever stands behind the data |
| PngStandard.FileOutcome | backend/app/services/report_pdf.py:73-147 | For every header and every data: which of the errors a file is refused with, in which order, or with which size and channels it is decoded; data suffice exactly if they reach into every row and far enough into the last |
| PngStandard.FileEmbeds | backend/app/services/report_pdf.py:150-181 | The image embedded for such a file has its size and its samples, those of RGBA pixel by pixel split into color and alpha |
| PngStandard.RefusedIsNotEmbedded | backend/app/services/report_pdf.py:73-81 | A file that does not begin with the PNG signature is refused, and what is refused is not embedded |
| PngStandard.NamesAreStandard | backend/app/services/report_pdf.py:79-100 | Signature and chunk names, letter by letter |
| PngDecode.ReadChunks | backend/app/services/report_pdf.py:82-100 | The chunk loop terminates and computes the scan that the lemmas below characterise |
| PngDecode.ReaderFindsMeaning | backend/app/services/report_pdf.py:82-100 | Reading any printed list of chunks gives the list's meaning, whatever the chunk sizes and whatever follows IEND |
| PngDecode.ReaderRecoversFile | backend/app/services/report_pdf.py:82-100 | Header fields and concatenated image data are recovered for every split of the data and every unknown chunk in between |
| PngDecode.DecodePng | backend/app/services/report_pdf.py:73-147 | The decoder computes its specification, with every error it raises |
| PngDecode.DecodeUndoesEncode | backend/app/services/report_pdf.py:73-147 | Decoding an encoded image of any size, color type, filter choice and chunking gives its exact samples |
| PngDecode.SplitPlanes | backend/app/services/report_pdf.py:161-171 | The pixel loop yields the colour and alpha planes, or fails exactly when the data is short |
| PngDecode.PlanesRecombine | backend/app/services/report_pdf.py:161-171 | The two planes recombine to the raw pixels |
| PngDecode.EmbeddedRgbaRecombines | backend/app/services/report_pdf.py:150-171 | The planes embedded for an encoded RGBA file recombine to its exact samples |
| PdfString.EscapeIsBytewise | backend/app/services/report_pdf.py:32-33 | The three replacements in their order escape every byte exactly once |
| PdfString.OnlyReturnsAreLost | backend/app/services/report_pdf.py:27-33 | Normalising end-of-line markers changes the bytes of a text exactly if the text holds a carriage return |
| PdfString.TextReadsBack | backend/app/services/report_pdf.py:27-33 | A reader of literal strings (section 7.3.4.2 of ISO 32000-1) gets a text's WinAnsi bytes back exactly if the text holds no carriage return |
| PdfString.WinByteDecodes | backend/app/services/report_pdf.py:27-29 | The WinAnsi byte of a character stands for that character, or is a question mark for one that has none |
| PdfDrawing.ContentShowsTexts | backend/app/services/report_pdf.py:211-234 | From a page's content stream a reader recovers the drawn texts in drawing order, end-of-line markers normalised; these are the drawn bytes exactly if no text holds a carriage return |
| PdfGraphics.ContentReadsBack | backend/app/services/report_pdf.py:211-234 | A reader of a page's operators gets back everything drawn: each text with bytes, place, size, shade and font name, each picture with place, size and name, each rule with ends, width and shade |
| PdfResources.PageImageLookup | backend/app/services/report_pdf.py:274-286 | In a page's resources every picture's name leads to its own object |
| PdfResources.PageFontLookup | backend/app/services/report_pdf.py:274-286 | And the two font names lead to the two font objects |
| PdfResources.FacesRead | backend/app/services/report_pdf.py:237-238 | Which name Helvetica and Helvetica-Bold |
| PdfBuilder.Builder.NewPage | backend/app/services/report_pdf.py:208-209 | A new, empty page behind the others |
| PdfBuilder.Builder.Draw | backend/app/services/report_pdf.py:211-219 | An operation is printed at the end of the last page, and no other page changes |
| PdfBuilder.Builder.DrawImage | backend/app/services/report_pdf.py:221-229 | An image that decodes is recorded and drawn under its own index; otherwise nothing changes |
| PdfBuilder.Builder.Build | backend/app/services/report_pdf.py:236-316 | The loops over images, pages and objects produce the file that the readback lemmas speak of |
| PdfReadback.EntriesShape | backend/app/services/report_pdf.py:309-310 | Table entries are 20 bytes each exactly if no offset has more than ten digits |
| PdfReadback.WrittenFileReadsBack | backend/app/services/report_pdf.py:301-316 | Following startxref, the table and its entries from the end of the file lands on every object and recovers its body and the catalog, exactly if no offset has more than ten digits |
| PdfReadback.LongFileIsUnreadable | backend/app/services/report_pdf.py:309-310 | A file whose second object lies behind one of ten billion characters cannot be read |
| PdfPages.KidsRead | backend/app/services/report_pdf.py:288-291 | The Kids array reads back as the page ids in order |
| PdfPages.TextsAreStandard | backend/app/services/report_pdf.py:268-316 | The fixed texts that writer and reader share, letter by letter; a page is 595 by 842 points |
| PdfPages.PatchSetsParent | backend/app/services/report_pdf.py:294-299 | Patching a page object sets its Parent to the Pages object and changes nothing else |
| PdfPages.ContentReads | backend/app/services/report_pdf.py:270-273 | The content stream of a finished file has its Length and text exactly if the page does not hold the placeholder |
| PdfDocument.AddImagesResolve | backend/app/services/report_pdf.py:240-266 | Every image id names the image's own object, whose soft mask is the object before it |
| PdfDocument.BuiltLayout | backend/app/services/report_pdf.py:236-299 | Where fonts, images, pages, their contents, Pages and Catalog lie, so that every reference printed by the writer names an existing object of the right kind |
| PdfDocument.BuiltPagesReadBack | backend/app/services/report_pdf.py:268-299 | Catalog, Kids, Parent and Contents lead a reader to every page's content in order, exactly if no page holds the placeholder |
| PdfDocument.FileReadsBack | backend/app/services/report_pdf.py:236-316 | The bytes of a written file give back its pages' contents exactly under these two conditions |
| PdfDocument.PlaceholderPageIsLost | backend/app/services/report_pdf.py:294-299 | A page that shows the text of the placeholder does not read back |
| PdfImages.ImagesSurviveExactly | backend/app/services/report_pdf.py:240-299 | The image object that the pages name, and its mask, are in the finished document as they were printed, exactly if the compressed bytes of neither hold the placeholder |
| PdfPictures.FilePictures | backend/app/services/report_pdf.py:236-316 | From the bytes of a written file a reader finds under its id every image that holds no placeholder: its size, gray or RGB, its compressed samples, and its mask with size and compressed alpha |
| PdfPictures.DeclaredLengthIsExact | backend/app/services/report_pdf.py:257-265 | An image's declared length is that of its stream exactly if compression leaves the number of bytes as it was |
| PdfShapes.FileShows | backend/app/services/report_pdf.py:208-316 | From the bytes of a written file a reader gets, page by page and in drawing order, every text with its font's face, every picture with the id of its own object, and every rule |
| ReportLayout.LayoutIsSafe | backend/app/services/report_pdf.py:319-390 | For every report: texts and images lie between upper and lower margin and start on the left one; a text of several words ends before the right margin, counting its characters; images and rules end on it; and the boxes of a page lie below one another |
| ReportLayout.LayoutIsFlow | backend/app/services/report_pdf.py:340-388 | The layout carries out a list of steps written down from the report's fields, with every size, face, shade, gap and room as a number |
| ReportLayout.LineIsPlaced | backend/app/services/report_pdf.py:332-337 | A line is drawn at fifty points, its size and four lower than the last, on a new page if that would be below fifty |
| ReportLayout.ParaIsPlaced | backend/app/services/report_pdf.py:332-338 | A paragraph, which has a line even if it is empty, leaves its gap below its last line |
| ReportLayout.RoomIsMade | backend/app/services/report_pdf.py:326-330 | Room is made by a new page if fifty points would not be left; a skip only goes down |
| ReportLayout.PictureIsPlaced | backend/app/services/report_pdf.py:374-378 | A picture is 495 by 225 points, 230 lower, on a new page if less than 290 points are left |
| ReportLayout.RuleIsPlaced | backend/app/services/report_pdf.py:348-349 | The rule goes from margin to margin, fourteen points above what follows |
| ReportLayout.PiecesAreLossless | backend/app/services/report_pdf.py:319-390 | For every report, what is drawn page by page, texts, pictures and rule, is what the steps ask for, in order |
| ReportContent.PagesShowReport | backend/app/services/report_pdf.py:319-390 | For every report, the visible characters drawn, each with size, face and shade, and the pictures between them, are exactly: title, date and number of sections, rule, summary; of each section title, metric, total if any, number of rows, picture or else the note, narrative; warnings |
| ReportLayout.LayoutIsLossless | backend/app/services/report_pdf.py:319-390 | For every report, the drawn texts read page by page are the wrapped paragraphs in report order |
| ReportPdf.Renderer.Line | backend/app/services/report_pdf.py:334-337 | One line of a paragraph, with a page break when it would not fit |
| ReportPdf.Renderer.RenderSection | backend/app/services/report_pdf.py:354-385 | One section: heading, meta line, picture or note, narrative |
| ReportPdf.RenderReport | backend/app/services/report_pdf.py:319-390 | The renderer produces the file of the laid-out report |
| PdfPlaceholder.FreePage | backend/app/services/report_pdf.py:294-299 | A printed page holds the placeholder exactly if one of its texts does, escaping notwithstanding |
| ReportPdf.ReportPagesReadBack | backend/app/services/report_pdf.py:319-390 | A report's file reads back page by page exactly if no wrapped line holds the placeholder and the file is not too long |
| ReportPdf.ReportReadsBack | backend/app/services/report_pdf.py:319-390 | From the bytes of a report's file a reader recovers the wrapped paragraphs of the report, in order, with end-of-line markers normalised; these are their own bytes exactly if no wrapped line holds a carriage return |
| ReportFile.FileShowsReport | backend/app/services/report_pdf.py:319-390 | From the bytes of a report's file a reader gets shapes that display, one by one, pieces of text and pictures which show exactly those fields of the report |
| ReportFile.ReportPicturesAreFound | backend/app/services/report_pdf.py:319-390 | And finds the decoded images and masks under the ids of these pictures |
| LineEndings.LineKeepsReturn | backend/app/services/report_pdf.py:40-50 | A line with a carriage return at its end, or none, is wrapped into lines without one exactly unless it ends in one and its last word does not fit behind the words before it |
| LineEndings.WindowsReportReadsBack | backend/app/services/report_pdf.py:319-390 | A report with carriage returns at ends of lines only reads back exactly if in no paragraph the last word of such a line breaks |
| LineEndings.ShortLineIsStripped | backend/app/services/report_pdf.py:40-50 | A one-word line loses its carriage return |
| LineEndings.LastWordKeepsReturn | backend/app/services/report_pdf.py:42-50 | Behind a word that fills the line the last word is drawn with its carriage return |
| LineEndings.ReturnInWordIsLost | backend/app/services/report_pdf.py:32-51 | A carriage return inside a word is drawn and does not read back |
| Chunking.ChunkContent | backend/app/services/wiki.py:55-72 | The loop computes the chunks that the lemmas below are about |
| Chunking.ChunksAreLossless | backend/app/services/wiki.py:55-72 | The chunks joined by blank lines are the normalised paragraphs, for every text |
| Chunking.JoinedChunksHaveSameParagraphs | backend/app/services/wiki.py:55-72 | Splitting that text again gives the same paragraphs |
| Chunking.ChunkingIsIdempotent | backend/app/services/wiki.py:55-72 | And chunking it again gives the same chunks |
| Chunking.ChunksFit | backend/app/services/wiki.py:63-71 | A chunk is within the target or is one paragraph |
| Chunking.ChunkCountIsMinimal | backend/app/services/wiki.py:63-71 | No grouping of consecutive paragraphs into such chunks has fewer |
| LruCache.Lru.Get | backend/app/core/cache.py:114-128 | An expired entry is dropped, a live one becomes the most recent; keys stay distinct and the capacity holds |
| LruCache.Lru.Set | backend/app/core/cache.py:130-139 | The entry is the most recent, and the least recent ones make room |
| LruCache.Lru.Invalidate | backend/app/core/cache.py:141-152 | Exactly the entries whose key begins with the prefix go, and are counted |
| LruCache.Inclusion | backend/app/core/cache.py:103-152 | On every trace, with any lifetimes and any clock, a smaller cache holds a part of what a larger one holds, with equal values and stamps, and neither exceeds its capacity |
| LruCache.LargerCacheHitsToo | backend/app/core/cache.py:114-128 | A hit in a smaller cache is the same hit in every larger one |
| LruCache.HitsAreExact | backend/app/core/cache.py:103-152 | Every hit returns what an unbounded map with lifetimes would return |
| LruCache.SetStays | backend/app/core/cache.py:103-139 | What was set is returned to whoever asks before it expires, in every trace in which fewer other keys than the cache has places were asked for or set since, and none of them removes it |
| LruCache.HitStays | backend/app/core/cache.py:103-139 | The same counted from the last hit |
| TwoTier.Redis.SetEx | backend/app/core/cache.py:248-256 | A reachable shared tier holds the value until its lifetime is over; an unreachable one is unchanged |
| TwoTier.CacheService.Lookup | backend/app/core/cache.py:721-734 | Own tier first, then the shared tier, whose hit is stamped afresh in the own tier |
| TwoTier.CacheService.Put | backend/app/core/cache.py:736-739 | Both tiers get the value |
| TwoTier.CacheService.Check | backend/app/core/auth.py:88-99 | The read-through of both tiers and the database, caching what the database answers |
| TwoTier.LookupKeepsCurrent | backend/app/core/cache.py:721-734 | Promotion never stamps an outdated value later than the moment its shared cell expires |
| ControlPlane.CacheKeyInjective | backend/app/core/cache.py:76-78 | Different subjects never share a cache key, whatever characters their ids hold |
| ControlPlane.Worker.TenantIsSuspended | backend/app/core/auth.py:88-99 | The suspension check on the worker's tiers and the database |
| ControlPlane.Worker.PlatformAdminActive | backend/app/core/auth.py:155-172 | The grant check on the worker's tiers and the database |
| ControlPlane.Worker.UpdateTenantStatus | backend/app/services/tenants.py:328-374 | Row first, then both tiers; nothing for an unknown tenant |
| ControlPlane.Worker.GrantSuperadmin | backend/app/services/platform_admins.py:17-32 | Row first, then both tiers |
| ControlPlane.Worker.RevokeSuperadmin | backend/app/services/platform_admins.py:44-58 | As above for an active grant; otherwise nothing changes, not even the cache |
| ControlPlane.WritesBind | backend/app/core/cache.py:721-759 | In every run of any number of workers, a check by any worker sees a write of status or grant once 60 seconds have passed, 120 if the writer does not reach the shared tier, until the next write |
| ControlPlane.BoundIsExact | backend/app/core/cache.py:721-759 | A delay suffices in all runs if and only if it is at least that bound |
| ControlPlane.SuspensionBinds | backend/app/core/auth.py:88-130 | After that bound a check answers "suspended" exactly if the last status written is that |
| ControlPlane.RevocationBinds | backend/app/core/auth.py:134-172 | And answers an admin's grant exactly as it was last written |
| ControlPlane.OnlyGrantedAreLetIn | backend/app/core/auth.py:134-172 | In every run, a user to whom nobody has granted anything is never let through |
| ControlPlane.EventsAreMethods | backend/app/core/auth.py:88-172 | The steps of these runs are what the methods do to database and tiers; refused writes do nothing |
| LlmResolver.Resolver.Resolve | backend/app/llm/resolver.py:82-108 | Pointer, memo, row: result, memo and both tiers afterwards |
| LlmResolver.Resolver.InvalidateResolution | backend/app/llm/resolver.py:75-79 | The loop forgets exactly the tenant's entries |
| LlmResolver.Resolver.SetProviderConfig | backend/app/services/byok.py:88-108 | Version 1 for a new row, one more for an old one; without a key nothing changes |
| LlmResolver.Resolver.DeleteProviderConfig | backend/app/services/byok.py:139-149 | The row and the worker's entries go |
| LlmResolver.Resolver.SetStatus | backend/app/services/byok.py:163-175 | The status changes, the version does not |
| LlmResolver.SoleWriterIsExact | backend/app/llm/resolver.py:82-108 | A worker that makes all writes of a tenant always resolves what loading the row now gives, whatever others do, even after deletion and recreation |
| LlmResolver.StaleForTwoLifetimes | backend/app/llm/resolver.py:82-108 | If a configuration is never recreated, every worker resolves exactly what the row says once two pointer lifetimes have passed since the last write |
| LlmResolver.RightAfterExactly | backend/app/llm/resolver.py:82-108 | After any run and then a write of the tenant's row, for every worker and every bound of two pointer lifetimes or more: the worker resolves the present row from the bound on, however things go on until the next write, if and only if right after the write it remembers nothing else under the version now effective |
| LlmHistory.SoleWriterGetsItsDue | backend/app/services/byok.py:88-175 | A worker that makes all writes of a tenant resolves at once what the history of writes asks for: the configuration saved last if it is there and switched on, the platform's otherwise, and neither without the key |
| LlmHistory.EveryWorkerGetsItsDue | backend/app/services/byok.py:88-175 | Every worker does so two pointer lifetimes after the last write, if no deleted configuration was saved again |
| LlmHistory.RevertedMeansPlatform | backend/app/llm/resolver.py:82-131 | Switched off or deleted last: the platform's configuration |
| LlmHistory.SavedIsUsed | backend/app/services/byok.py:88-108 | Saved last: exactly what was saved |
| LlmHistory.SwitchedOnIsUsed | backend/app/services/byok.py:163-175 | Switched on last: what was saved before |
| LlmHistory.ResolveDoes | backend/app/llm/resolver.py:88-104 | What a resolution leaves behind: the pointer is looked up in both tiers; what was loaded because nothing was remembered is remembered under its number, and the pointer to it put into both tiers |
| LlmHistory.NoTenantMeansPlatform | backend/app/llm/resolver.py:82-85 | Without a tenant: the platform's configuration, and nothing is remembered |
| LlmResolver.RecreatedIsStaleForEver | backend/app/services/byok.py:88-106 | For every n there is a run in which a worker still resolves the replaced configuration n rounds of 61 seconds after the last write |
| LlmResolver.UnconfiguredTenantNeedsKey | backend/app/llm/resolver.py:111-131 | A tenant without a configuration gets the platform's exactly if the encryption key is set |
| EventStream.ReadStream | frontend/src/lib/api-client.ts:186-206 | Delivered events and leftover buffer depend on the concatenated text only, not on the chunks |
| EventStream.PayloadIsHeld | frontend/src/lib/api-client.ts:193-197 | A line carries a payload exactly if it is "data:" and the payload, with blanks before, between and behind them |
| EventStream.FramesArrive | frontend/src/lib/api-client.ts:190-205 | From frames with any invalid lines in between, the reader delivers exactly the framed payloads in order, and is left with the unterminated tail |
| EventStream.EventsArrive | backend/app/services/chat_service.py:241-242 | Server framing and reader: exactly the printed events that the schema accepts arrive, in order, each as what the schema keeps of it, and nothing is left over |
| EventStream.AgreesWithStandard | frontend/src/lib/api-client.ts:193-205 | The reader agrees with section 9.2.6 of the WHATWG HTML Standard on a stream of events exactly if every event has one data line |
| ChatService.Service.StepExecute | backend/app/services/chat_service.py:718-766 | Cached rows, or the source's rows masked and then cached; a failing source caches nothing |
| ChatService.Service.ProcessQuery | backend/app/services/chat_service.py:44-216 | Whatever the stages do or raise: the question and then the one answer that the ending calls for are persisted, the response has every field of that ending, SQL runs only behind its verdict and confirmation, and log and cache are those of the theorems below |
| ChatService.Service.ProcessQueryStream | backend/app/services/chat_service.py:222-406 | The same for the streaming run, whose events are a word of the event grammar, each says what its stage said, and the last one names the ending |
| ChatMessage.ContentCarries | backend/app/services/chat_service.py:438-458 | A reader that splits a persisted answer at its last mark gets the narrative, or the default text, and the chart, SVG before image, exactly unless data or narrative look like a mark |
| ChatMessage.MarkInNarrativeIsLost | backend/app/services/chat_service.py:438-458 | A narrative that ends like a picture is cut there |
| ChatEndings.StreamEnds | backend/app/services/chat_service.py:222-406 | Every streaming run: the ending is told from the outcomes of the stages; events, turns and the final event with its warnings, and the message of an error, are those of that ending |
| ChatEndings.SyncEnds | backend/app/services/chat_service.py:44-216 | Every other run: turns and all fields of the response are those of its ending |
| ChatEndings.RunsCall | backend/app/services/chat_service.py:44-406 | What is validated, executed and shown to the agents, in order, in either run |
| ChatPipeline.OneTurnEach | backend/app/services/chat_service.py:44-406 | Whatever fails, both runs persist the user's turn and then exactly one assistant turn |
| ChatPipeline.RunsAgree | backend/app/services/chat_service.py:44-406 | Unless the result is an empty list: the same turns, the same work, and a client that collects the events of a completed run has the other run's response, field by field, warnings included |
| ChatPipeline.TurnsAgreeExactly | backend/app/services/chat_service.py:150-165 | The turns agree exactly if the result is not an empty list, or the narrative written for it equals the no-data message |
| ChatPipeline.EmptyResultDiverges | backend/app/services/chat_service.py:150-165 | A question, outcomes of the stages and an empty result for which the two runs persist different answers |
| ChatPipeline.StreamEmitsAWord | backend/app/services/chat_service.py:254-406 | Every streaming run emits the stages in order, cut short anywhere, then exactly one done; complete exactly behind a narrative |
| ChatPipeline.RunsAreGated | backend/app/services/chat_service.py:107-148 | SQL runs only in its validated form, behind a valid verdict on it and, if demanded, a confirmation; agents see only the rows of that execution |
| ChatHistory.OnlyMaskedRowsTravel | backend/app/services/chat_service.py:718-766 | After any history of runs and evictions, every cached row set, every row set shown to an agent by the next run, and the rows whose beginning its data event carries, are what the source returned to one of these runs for a query under the same key, masked |
| QueryKey.KeyIsWords | backend/app/core/cache.py:86-89 | Two queries share a cache key exactly if they have the same words up to case |
| QueryKey.CacheIsExactly | backend/app/services/chat_service.py:718-766 | After any use of the cache every query gets what it would get without it, if and only if the masked source gives queries with the same words up to case the same answer |
| QueryKey.SecondGetsFirst | backend/app/services/chat_service.py:718-766 | Of two queries with the same words up to case the second gets the rows of the first |
| QueryKey.CaseIsNotPartOfTheKey | backend/app/core/cache.py:86-89 | Every query shares its words with its lower-cased form, quoted parts included |
| QueryKey.BlanksAreConfused | backend/app/core/cache.py:86-89 | So do queries that differ in the number of blanks at any place |
| QueryKey.OpenOrdersAreConfused | backend/app/core/cache.py:86-89 | Two queries and a source: the second query gets the row of the first instead of its own |
| ChatHistory.SchemaTakesExactly | frontend/src/lib/validators.ts:13-36 | The schema takes every event of the server, except chart events with anything missing |
| ChatHistory.OnlyStartIsStripped | frontend/src/lib/validators.ts:13-36 | What the schema keeps is the whole printed event, exactly for all events but the start event, which loses its query |
| ChatHistory.OnlyQueriesAreConfused | frontend/src/lib/validators.ts:13-36 | Two events arrive as the same message exactly if they are equal, or start events that differ in the query only |
| ChatHistory.MessageTells | backend/app/services/chat_service.py:241-400 | Under which fields each event arrives in the browser, and what they hold |
| ChatHistory.BrowserSees | frontend/src/lib/api-client.ts:186-206 | From the server's log to the browser's callback, in whatever chunks: the run's events in order, the start event without its query and all others whole, less incomplete chart events |
| ChatHistory.OneRenderingIsLost | backend/app/services/chat_service.py:366-374 | If the renderer yields an image or an SVG but not both, the browser is handed no chart event |
| Scheduler.NextRun | backend/app/services/report_schedules.py:44-56 | The next run is strictly later than now and at most thirty days away |
| Scheduler.RunsAreSpaced | backend/app/services/report_schedules.py:44-56 | The next run is the first full hour after now, or exactly a day, a week or thirty days away |
| Scheduler.FrequenciesAreWords | backend/app/services/report_schedules.py:64-70 | A frequency is accepted exactly if it is one of the four words in any case, and means that one |
| Scheduler.ScheduleDoes | backend/app/services/report_schedules.py:64-90 | A scheduled report is enabled and due at its next run, keeps its last run, and no other schedule changes |
| Scheduler.BatchTakes | backend/app/services/report_schedules.py:144-152 | A pass takes at most twenty, all enabled and due; who waits though due stands behind twenty that are no later |
| Scheduler.PassDoes | backend/app/services/report_schedules.py:154-180 | A pass marks each of its reports as run now, with the error left if any, and due one period later |
| Scheduler.ReportSchedules.ScheduleReport | backend/app/services/report_schedules.py:64-90 | The row is created or replaced; an unknown frequency changes nothing |
| Scheduler.ReportSchedules.RunDueSchedules | backend/app/services/report_schedules.py:134-182 | One pass advances exactly the fetched rows, failing ones included, and counts them |
| Scheduler.BatchExists | backend/app/services/report_schedules.py:144-152 | For every table and time the query for due rows has an answer |
| Scheduler.NoStarvation | backend/app/services/report_schedules.py:134-182 | A due report with k rows at or before its time is processed within ceil((k+1)/20) passes, whatever else is scheduled or fails and however ties are ordered |
| Scheduler.NotSooner | backend/app/services/report_schedules.py:144-152 | With k rows strictly before it, a due report is not processed in floor(k/20) passes |
| WikiPages.Wiki.UpsertPage | backend/app/services/wiki.py:130-199 | Page row, revision row and chunks after an edit; the version is one more than the highest, and `embedded` says whether all chunks were stored |
| WikiPages.Wiki.SyncEmbeddings | backend/app/services/wiki.py:75-96 | The page's chunks are replaced one by one as far as the embedding service answers |
| WikiPages.Wiki.RestorePage | backend/app/services/wiki.py:268-288 | The revision is found through the page's slug and written again, or nothing changes |
| WikiSaves.SaveDoes | backend/app/services/wiki.py:130-199 | A saved page has title, cut to five hundred characters, text, parent and editor of the edit; one revision with the next number says the same |
| WikiSaves.SaveLeavesOthers | backend/app/services/wiki.py:130-199 | No other page, revision or chunk is touched |
| WikiSaves.SaveEmbeds | backend/app/services/wiki.py:75-96 | Its chunks are those of its text as far as the service answered, or the old ones if it did not; it counts as embedded exactly if all are stored |
| WikiSaves.DeleteDoes | backend/app/services/wiki.py:213-221 | A deleted page is gone with its revisions and chunks, and no other page is touched |
| WikiPages.WikiStaysConsistent | backend/app/services/wiki.py:130-221 | Over all runs: versions of a live page are exactly 1 to n, and the page shows revision n |
| WikiPages.HistoryOnlyGrows | backend/app/services/wiki.py:130-199 | Over all runs that do not delete a page, its old revisions never change or disappear |
| WikiPages.RestoreAppends | backend/app/services/wiki.py:268-288 | Exactly versions 1 to n can be restored; version n+1 then equals the restored one and the page shows it |
| WikiPages.RestoreIsUndoable | backend/app/services/wiki.py:268-288 | Restoring an old version and then the one that was current gives title and text back |
| WikiPages.RestoreKeepsParentExactly | backend/app/services/wiki.py:282-288 | A restored page keeps its parent exactly if it had none |
| WikiPages.HistoryCountsDown | backend/app/services/wiki.py:244-265 | The listing, newest first, counts the versions down from n to 1 |
| WikiPages.ReconcileHealsExactly | backend/app/services/wiki.py:99-112 | Re-embedding completes a page whose embedding stopped exactly if none or all of its chunks were stored |
| TenantUsers.UserService.ProvisionTenant | backend/app/services/tenants.py:88-110 | Tenant and first admin together, or no change on a taken name or slug |
| TenantUsers.UserService.CreateUser | backend/app/services/users.py:118-149 | A new user, or no change and the reason |
| TenantUsers.UserService.UpdateUser | backend/app/services/users.py:164-249 | All named fields change, or nothing and the reason |
| TenantUsers.UserService.DeleteUser | backend/app/services/users.py:279-318 | The user goes, or nothing changes and the reason |
| TenantUsers.TenantsStayAdministrable | backend/app/services/users.py:118-318 | Over all serial runs over any tenants: an active admin in every tenant, unique emails in each, unique names and slugs, valid roles |
| TenantUsers.UpdateRefusedExactly | backend/app/services/users.py:198-208 | An update is refused for the last admin's sake exactly if it would leave the tenant without one |
| TenantUsers.DeleteRefusedExactly | backend/app/services/users.py:295-303 | So is a deletion |
| TenantUsers.OtherTenantsUntouched | backend/app/services/users.py:118-318 | No operation touches a user of another tenant |
| UserHistory.ProvisionDoes | backend/app/services/tenants.py:88-110 | Accepted exactly with a free name and slug; the first user is an active admin with the given email |
| UserHistory.CreateDoes | backend/app/services/users.py:118-149 | Accepted exactly with valid roles, an existing tenant and a free email; the user has exactly these roles and that email, and is active; nobody else changes |
| UserHistory.UpdateDoes | backend/app/services/users.py:164-249 | Accepted exactly if all demands are met, refused with the first that is not; exactly the named fields are new |
| UserHistory.DeleteDoes | backend/app/services/users.py:279-318 | Accepted exactly if the user is one of the tenant's and an active admin remains |
| UserHistory.AccountsFollowOps | backend/app/services/users.py:118-318 | Over all runs a user exists, with the email, roles and status that the accepted operations on it gave it last |
| UserHistory.AdminsWereNamed | backend/app/services/users.py:118-318 | Over all runs from the empty directory a user is an admin exactly if the last accepted operation that set its roles named it one, and it was not deleted |
| VisFlint.ParseVisFlintBlocks | backend/app/agents/chart/vis_flint_protocol.py:43-69 | The loop yields the blocks that the lemmas below characterise |
| VisFlint.NextIsLeftmostMatch | backend/app/agents/chart/vis_flint_protocol.py:51-54 | Finding the fences gives the leftmost, shortest match of the pattern, or none if there is none |
| VisFlint.BlocksAreTheMatches | backend/app/agents/chart/vis_flint_protocol.py:51-69 | Every block is a match, and no match begins outside the blocks |
| VisFlint.FitBounds | backend/app/agents/chart/vis_flint_protocol.py:51-69 | Blocks that fit are in range, in order and disjoint |
| VisFlint.RenderVisFlintBlocks | backend/app/agents/chart/vis_flint_protocol.py:72-124 | The loop over the blocks computes the text with each block replaced |
| VisFlint.SourcesRestore | backend/app/agents/chart/vis_flint_protocol.py:88-124 | Replacing every block by its own source gives the text |
| VisFlint.RenderingChangesBlocksOnly | backend/app/agents/chart/vis_flint_protocol.py:88-124 | For every renderer, text and result are the same pieces around the blocks' sources and around their replacements |
| VisShown.BlockShows | backend/app/agents/chart/vis_flint_protocol.py:96-119 | A replaced block shows its SVG, its image with the chart's type, or its own code with the reason; for an image exactly if the data do not run into the quote behind them |

## Left out

* Compression, SVG rasterisation and PNG checksums: inflate and deflate are parameters, checksums are any four bytes (the code never checks them).
* Floating point: coordinates and sizes are whole points, widths hundredths of the font size, shades of gray hundredths; a section's formatted total is a text of the report.
* ReportLayout.LayoutIsSafe: says nothing about a single word wider than the column, which the code does not break, and does not keep the rule under the title above the bottom margin, below which it may lie by a paragraph gap.
* MemoryError and recursion limits of Python; images so large that they do not fit in memory.
* Characters split between two network chunks: the reader's text decoder joins them before the modelled loop sees them.
* Exceptions in the network part of the browser's reader, and aborting it.
* Interleavings inside one check, one resolution or one user operation: each is one step. The code takes no locks there.
* Outages of the database, under which the checks let requests through, and deleting a tenant (`decommission_tenant`).
* Validation of a provider's key and name, encryption of keys, audit records, usage reports.
* What the agents, the language models and the SQL validator decide: outcomes of the stages, which may also be exceptions. A client that disconnects from a stream.
* ChatService.Service.StepExecute: lifetimes and tiers of the query cache are not modelled; a cached row set may vanish at any time instead. Hash collisions and tenants' separate keys are left out.
* JSON text itself: printing and parsing are parameters with the property that parsing a printed event gives what the schema keeps of it, or nothing if the schema refuses it. Numbers that JavaScript refuses, such as NaN, are left out.
* Lower-casing of letters outside ASCII, in emails, frequencies and cache keys.
* The polling loop of the scheduler, and report regeneration itself: it succeeds or leaves an error text.
* Semantic and keyword search over the wiki, embedding vectors, time stamps of pages and revisions.
* Passwords, logins and audit records of users.
* A chart block whose JSON is a number makes the code raise an exception; rendering is a total function here.
* Masking rules, chart heuristics, prompt building, row-level security, dashboards, React components, HTTP routing: easy members or uninterpreted text.
