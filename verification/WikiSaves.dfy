/** What saving and deleting a wiki page leaves behind, told from the edit and the tables before. */
module WikiSaves {
  import opened WikiPages

  /** The first five hundred characters. */
  function Cut(title: string): string
  {
    title[..if |title| < 500 then |title| else 500]
  }

  /** The page of an edit has its title, cut to five hundred characters, its text, its parent and its editor,
      and keeps its id if it had one; and one revision with the next number says the same. */
  lemma {:induction false} SaveDoes(t: Tables, e: Edit, sync: Sync)
    requires Consistent(t)
    ensures var t' := Upsert(t, e, sync);
            var id := if e.slug in t.pages then t.pages[e.slug].id else t.nextId;
            var before := if e.slug in t.pages then HistoryOf(t, e.slug) else [];
            e.slug in t'.pages
            && t'.pages[e.slug] == Page(id, Cut(e.title), e.content, e.parent, e.editor)
            && HistoryOf(t', e.slug) == before + [Revision(id, |before| + 1, Cut(e.title), e.content, e.editor)]
  {
    WriteAppends(t, e);
    assert Truncated(e.title) == Cut(e.title);
  }

  /** No other page is touched, nor its revisions and chunks. */
  lemma {:induction false} SaveLeavesOthers(t: Tables, e: Edit, sync: Sync, slug: string)
    requires Consistent(t) && slug != e.slug
    ensures var t' := Upsert(t, e, sync);
            (slug in t'.pages <==> slug in t.pages)
            && (slug in t.pages ==>
                  var id := t.pages[slug].id;
                  t'.pages[slug] == t.pages[slug] && HistoryOf(t', slug) == HistoryOf(t, slug)
                  && (id in t'.chunks <==> id in t.chunks) && (id in t.chunks ==> t'.chunks[id] == t.chunks[id]))
  {
    if slug in t.pages {
      WriteLeavesOthers(t, e, slug);
    }
  }

  /** The chunks of a saved page: those of its text as far as the embedding service answered, in order, or the
      old ones if it did not answer at all. The save counts as embedded exactly if all of them are stored. */
  lemma {:induction false} SaveEmbeds(t: Tables, e: Edit, sync: Sync)
    ensures var t', all := Upsert(t, e, sync), Chunking.Chunks(e.content, 1500);
            var id := if e.slug in t.pages then t.pages[e.slug].id else t.nextId;
            match sync
            case Unreached => t'.chunks == t.chunks
            case Stored(n) =>
              id in t'.chunks && t'.chunks[id] <= all && |t'.chunks[id]| == (if n < |all| then n else |all|)
              && (Completes(sync, e.content) <==> t'.chunks[id] == all)
    ensures sync.Unreached? ==> !Completes(sync, e.content)
  {
  }

  /** A deleted page is gone with its revisions and chunks, and no other page is touched. */
  lemma {:induction false} DeleteDoes(t: Tables, slug: string)
    requires Consistent(t)
    ensures var t' := Deleted(t, slug);
            slug !in t'.pages
            && (slug !in t.pages ==> t' == t)
            && (slug in t.pages ==>
                  RevisionsOf(t'.revisions, t.pages[slug].id) == [] && t'.chunks == t.chunks - {t.pages[slug].id})
            && forall other :: other != slug ==>
                 (other in t'.pages <==> other in t.pages)
                 && (other in t.pages ==>
                       t'.pages[other] == t.pages[other] && HistoryOf(t', other) == HistoryOf(t, other))
  {
    if slug in t.pages {
      RevisionsWithout(t.revisions, t.pages[slug].id, t.pages[slug].id);
      forall other | other != slug && other in t.pages
        ensures HistoryOf(Deleted(t, slug), other) == HistoryOf(t, other)
      {
        DeleteKeepsSound(t, slug, other);
      }
    }
  }
}
