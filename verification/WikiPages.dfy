/** Wiki pages of one tenant: every write appends a revision; restoring writes an old one again. */
module WikiPages {
  import opened Wrappers
  import Chunking

  const MAX_TITLE_LEN := 500
  const CHUNK_TARGET := 1500

  datatype Page = Page(id: nat, title: string, content: string, parent: Option<string>, updatedBy: string)

  datatype Revision = Revision(page: nat, version: nat, title: string, content: string, editedBy: string)

  /** The tables: pages by slug, revisions in the order of insertion, embedded chunks by page; and the
      next unused page id. */
  datatype Tables = Tables(pages: map<string, Page>, revisions: seq<Revision>, chunks: map<nat, seq<string>>,
                           nextId: nat)

  datatype Edit = Edit(slug: string, title: string, content: string, editor: string, parent: Option<string>)

  function Truncated(title: string): string
  {
    if |title| <= MAX_TITLE_LEN then title else title[..MAX_TITLE_LEN]
  }

  function RevisionsOf(rows: seq<Revision>, page: nat): seq<Revision>
  {
    if rows == [] then []
    else if rows[0].page == page then [rows[0]] + RevisionsOf(rows[1..], page)
    else RevisionsOf(rows[1..], page)
  }

  /** max(version) of the page's revisions, or 0. */
  function MaxVersion(rows: seq<Revision>, page: nat): nat
  {
    if rows == [] then 0 else
    var rest := MaxVersion(rows[1..], page);
    if rows[0].page == page && rows[0].version > rest then rows[0].version else rest
  }

  function WithoutPage(rows: seq<Revision>, page: nat): seq<Revision>
  {
    if rows == [] then []
    else (if rows[0].page == page then [] else [rows[0]]) + WithoutPage(rows[1..], page)
  }

  /** The revision of a page with a version, as the join on the slug finds it. */
  function FindRevision(t: Tables, slug: string, version: int): Option<Revision>
  {
    if slug !in t.pages then None else FindVersion(RevisionsOf(t.revisions, t.pages[slug].id), version)
  }

  function FindVersion(rows: seq<Revision>, version: int): (r: Option<Revision>)
    ensures r.Some? ==> r.value in rows && r.value.version == version
  {
    if rows == [] then None
    else if rows[0].version == version then Some(rows[0])
    else FindVersion(rows[1..], version)
  }

  /** The embedding of a page's chunks fails before the old ones are deleted, or replaces them and stops
      after some number of new ones. */
  datatype Sync = Unreached | Stored(count: nat)

  /** The first n chunks of the text, or all if there are fewer. */
  function FirstChunks(all: seq<string>, n: nat): seq<string>
  {
    if n <= |all| then all[..n] else all
  }

  /** Whether all chunks of the text are stored. */
  predicate Completes(sync: Sync, content: string)
  {
    sync.Stored? && sync.count >= |Chunking.Chunks(content, CHUNK_TARGET)|
  }

  function ChunksAfter(old_: map<nat, seq<string>>, page: nat, content: string, sync: Sync): map<nat, seq<string>>
  {
    match sync
    case Unreached => old_
    case Stored(n) => old_[page := FirstChunks(Chunking.Chunks(content, CHUNK_TARGET), n)]
  }

  function PageIdFor(t: Tables, slug: string): nat
  {
    if slug in t.pages then t.pages[slug].id else t.nextId
  }

  function NewRevision(t: Tables, e: Edit): Revision
  {
    var id := PageIdFor(t, e.slug);
    Revision(id, MaxVersion(t.revisions, id) + 1, Truncated(e.title), e.content, e.editor)
  }

  /** The transaction: the page is inserted or updated, and a revision appended. */
  function Written(t: Tables, e: Edit): Tables
  {
    Tables(t.pages[e.slug := Page(PageIdFor(t, e.slug), Truncated(e.title), e.content, e.parent, e.editor)],
           t.revisions + [NewRevision(t, e)], t.chunks, if e.slug in t.pages then t.nextId else t.nextId + 1)
  }

  /** The transaction, and then the chunks. */
  function Upsert(t: Tables, e: Edit, sync: Sync): Tables
  {
    Written(t, e).(chunks := ChunksAfter(t.chunks, PageIdFor(t, e.slug), e.content, sync))
  }

  /** Revisions and chunks go with the page. */
  function Deleted(t: Tables, slug: string): Tables
  {
    if slug !in t.pages then t else
    var id := t.pages[slug].id;
    t.(pages := t.pages - {slug}, revisions := WithoutPage(t.revisions, id), chunks := t.chunks - {id})
  }

  /** Writing an old revision again, without naming a parent. */
  function RestoreEdit(slug: string, r: Revision, editor: string): Edit
  {
    Edit(slug, r.title, r.content, editor, None)
  }

  function Restored(t: Tables, slug: string, version: int, editor: string, sync: Sync): Tables
  {
    match FindRevision(t, slug, version)
    case None => t
    case Some(r) => Upsert(t, RestoreEdit(slug, r, editor), sync)
  }

  function Reversed<T>(s: seq<T>): seq<T>
  {
    if s == [] then [] else Reversed(s[1..]) + [s[0]]
  }

  // ---------- the service ----------

  class Wiki {
    var t: Tables

    constructor ()
      ensures t == Tables(map[], [], map[], 0)
    {
      t := Tables(map[], [], map[], 0);
    }

    /** Replace the page's chunks, one after the other, as far as the embedding service answers. */
    method SyncEmbeddings(page: nat, content: string, sync: Sync) returns (synced: bool)
      modifies this
      ensures t == old(t).(chunks := ChunksAfter(old(t).chunks, page, content, sync))
      ensures synced == Completes(sync, content)
    {
      var all := Chunking.ChunkContent(content, CHUNK_TARGET);
      if sync.Unreached? {
        return false;
      }
      var stored := [];
      var i := 0;
      while i < |all| && i < sync.count
        invariant 0 <= i <= |all| && i <= sync.count
        invariant stored == all[..i]
      {
        stored := stored + [all[i]];
        i := i + 1;
      }
      assert stored == FirstChunks(all, sync.count);
      t := t.(chunks := t.chunks[page := stored]);
      synced := i == |all|;
    }

    method UpsertPage(e: Edit, sync: Sync) returns (version: nat, embedded: bool)
      modifies this
      ensures t == Upsert(old(t), e, sync)
      ensures version == MaxVersion(old(t).revisions, PageIdFor(old(t), e.slug)) + 1
      ensures embedded == Completes(sync, e.content)
    {
      var title := Truncated(e.title);
      var id := t.nextId;
      if e.slug in t.pages {
        id := t.pages[e.slug].id;
      } else {
        t := t.(nextId := id + 1);
      }
      t := t.(pages := t.pages[e.slug := Page(id, title, e.content, e.parent, e.editor)]);
      version := MaxVersion(t.revisions, id) + 1;
      t := t.(revisions := t.revisions + [Revision(id, version, title, e.content, e.editor)]);
      assert t == Written(old(t), e);
      embedded := SyncEmbeddings(id, e.content, sync);
    }

    method DeletePage(slug: string) returns (existed: bool)
      modifies this
      ensures existed == (slug in old(t).pages) && t == Deleted(old(t), slug)
    {
      existed := slug in t.pages;
      if existed {
        var id := t.pages[slug].id;
        t := t.(pages := t.pages - {slug}, revisions := WithoutPage(t.revisions, id), chunks := t.chunks - {id});
      }
    }

    method RestorePage(slug: string, version: int, editor: string, sync: Sync) returns (found: bool)
      modifies this
      ensures found == FindRevision(old(t), slug, version).Some? && t == Restored(old(t), slug, version, editor, sync)
    {
      var r := FindRevision(t, slug, version);
      found := r.Some?;
      if found {
        var v, embedded := UpsertPage(RestoreEdit(slug, r.value, editor), sync);
      }
    }
  }

  // ---------- what every run keeps ----------

  /** Revisions numbered 1, 2, and so on. */
  ghost predicate Numbered(rows: seq<Revision>)
  {
    forall k :: 0 <= k < |rows| ==> rows[k].version == k + 1
  }

  /** The rows are revisions 1 to n for some n > 0, and the page shows what revision n says. */
  ghost predicate Shows(page: Page, rows: seq<Revision>)
  {
    rows != [] && Numbered(rows)
    && var last := rows[|rows| - 1];
    last.title == page.title && last.content == page.content && last.editedBy == page.updatedBy
  }

  ghost predicate Sound(t: Tables, slug: string)
    requires slug in t.pages
  {
    t.pages[slug].id < t.nextId && Shows(t.pages[slug], RevisionsOf(t.revisions, t.pages[slug].id))
  }

  ghost predicate Consistent(t: Tables)
  {
    (forall slug :: slug in t.pages ==> Sound(t, slug))
    && (forall a, b :: a in t.pages && b in t.pages && t.pages[a].id == t.pages[b].id ==> a == b)
    && forall r :: r in t.revisions ==> r.page < t.nextId && |r.title| <= MAX_TITLE_LEN
  }

  lemma {:induction false} RevisionsAppend(rows: seq<Revision>, r: Revision, page: nat)
    ensures RevisionsOf(rows + [r], page) == RevisionsOf(rows, page) + (if r.page == page then [r] else [])
  {
    if rows == [] {
      assert rows + [r] == [r] && [r][1..] == [];
    } else {
      assert (rows + [r])[1..] == rows[1..] + [r];
      RevisionsAppend(rows[1..], r, page);
    }
  }

  lemma {:induction false} RevisionsWithout(rows: seq<Revision>, gone: nat, page: nat)
    ensures RevisionsOf(WithoutPage(rows, gone), page) == if page == gone then [] else RevisionsOf(rows, page)
    ensures forall r :: r in WithoutPage(rows, gone) ==> r in rows
  {
    if rows != [] {
      RevisionsWithout(rows[1..], gone, page);
      var rest := WithoutPage(rows[1..], gone);
      assert rows[0].page != gone ==> ([rows[0]] + rest)[1..] == rest;
      assert rows[0].page == gone ==> [] + rest == rest;
    }
  }

  lemma {:induction false} NoRevisions(rows: seq<Revision>, page: nat)
    requires forall r :: r in rows ==> r.page != page
    ensures RevisionsOf(rows, page) == []
  {
    if rows != [] {
      NoRevisions(rows[1..], page);
    }
  }

  /** The next version is the number of revisions plus one. */
  lemma {:induction false} MaxIsCount(rows: seq<Revision>, page: nat, from: nat)
    requires forall k :: 0 <= k < |RevisionsOf(rows, page)| ==> RevisionsOf(rows, page)[k].version == from + k + 1
    ensures MaxVersion(rows, page) == if RevisionsOf(rows, page) == [] then 0 else from + |RevisionsOf(rows, page)|
  {
    if rows != [] {
      var tail := RevisionsOf(rows[1..], page);
      if rows[0].page == page {
        assert RevisionsOf(rows, page)[0] == rows[0];
        forall k | 0 <= k < |tail| ensures tail[k].version == from + 1 + k + 1 {
          assert RevisionsOf(rows, page)[k + 1] == tail[k];
        }
        MaxIsCount(rows[1..], page, from + 1);
      } else {
        MaxIsCount(rows[1..], page, from);
      }
    }
  }

  /** The revisions of the page that an edit writes: the old ones, and one more. */
  lemma {:induction false} WriteAppends(t: Tables, e: Edit)
    requires Consistent(t)
    ensures var id := PageIdFor(t, e.slug);
            var rows := RevisionsOf(t.revisions, id);
            RevisionsOf(Written(t, e).revisions, id) == rows + [NewRevision(t, e)]
            && NewRevision(t, e).version == |rows| + 1 && Numbered(rows) && (e.slug !in t.pages ==> rows == [])
  {
    var id := PageIdFor(t, e.slug);
    if e.slug in t.pages {
      assert Sound(t, e.slug);
    } else {
      NoRevisions(t.revisions, id);
    }
    MaxIsCount(t.revisions, id, 0);
    RevisionsAppend(t.revisions, NewRevision(t, e), id);
  }

  /** Other pages keep their rows. */
  lemma {:induction false} WriteLeavesOthers(t: Tables, e: Edit, slug: string)
    requires Consistent(t) && slug in t.pages && slug != e.slug
    ensures t.pages[slug].id != PageIdFor(t, e.slug) && t.pages[slug].id < t.nextId
    ensures RevisionsOf(Written(t, e).revisions, t.pages[slug].id) == RevisionsOf(t.revisions, t.pages[slug].id)
  {
    assert Sound(t, slug);
    RevisionsAppend(t.revisions, NewRevision(t, e), t.pages[slug].id);
  }

  lemma {:induction false} LastShows(page: Page, rows: seq<Revision>, last: Revision)
    requires Numbered(rows) && last.version == |rows| + 1
    requires last.title == page.title && last.content == page.content && last.editedBy == page.updatedBy
    ensures Shows(page, rows + [last])
  {
  }

  lemma {:induction false} WriteKeepsSound(t: Tables, e: Edit, slug: string)
    requires Consistent(t) && slug in Written(t, e).pages
    ensures Sound(Written(t, e), slug)
  {
    if slug == e.slug {
      WriteAppends(t, e);
      if slug in t.pages {
        assert Sound(t, slug);
      }
      LastShows(Written(t, e).pages[slug], RevisionsOf(t.revisions, PageIdFor(t, slug)), NewRevision(t, e));
    } else {
      assert Sound(t, slug);
      WriteLeavesOthers(t, e, slug);
    }
  }

  lemma {:induction false} WriteKeepsConsistent(t: Tables, e: Edit)
    requires Consistent(t)
    ensures Consistent(Written(t, e))
  {
    forall slug | slug in Written(t, e).pages ensures Sound(Written(t, e), slug) {
      WriteKeepsSound(t, e, slug);
    }
    forall slug | slug in t.pages && slug != e.slug ensures t.pages[slug].id != PageIdFor(t, e.slug) {
      WriteLeavesOthers(t, e, slug);
    }
  }

  lemma {:induction false} ChunksAreNoMatter(t: Tables, chunks: map<nat, seq<string>>)
    requires Consistent(t)
    ensures Consistent(t.(chunks := chunks))
  {
    forall slug | slug in t.pages ensures Sound(t.(chunks := chunks), slug) {
      assert Sound(t, slug);
    }
  }

  lemma {:induction false} UpsertKeepsConsistent(t: Tables, e: Edit, sync: Sync)
    requires Consistent(t)
    ensures Consistent(Upsert(t, e, sync))
  {
    WriteKeepsConsistent(t, e);
    ChunksAreNoMatter(Written(t, e), Upsert(t, e, sync).chunks);
  }

  lemma {:induction false} DeleteKeepsSound(t: Tables, slug: string, other: string)
    requires Consistent(t) && slug in t.pages && other in t.pages && other != slug
    ensures Sound(Deleted(t, slug), other)
    ensures RevisionsOf(Deleted(t, slug).revisions, t.pages[other].id) == RevisionsOf(t.revisions, t.pages[other].id)
  {
    assert Sound(t, other);
    RevisionsWithout(t.revisions, t.pages[slug].id, t.pages[other].id);
  }

  lemma {:induction false} DeleteKeepsConsistent(t: Tables, slug: string)
    requires Consistent(t)
    ensures Consistent(Deleted(t, slug))
  {
    if slug in t.pages {
      var t' := Deleted(t, slug);
      forall other | other in t'.pages ensures Sound(t', other) {
        DeleteKeepsSound(t, slug, other);
      }
      RevisionsWithout(t.revisions, t.pages[slug].id, 0);
    }
  }

  // ---------- runs ----------

  datatype Op =
    | Save(e: Edit, sync: Sync)
    | Delete(slug: string)
    | Restore(slug: string, version: int, editor: string, sync: Sync)

  function Do(t: Tables, op: Op): Tables
  {
    match op
    case Save(e, sync) => Upsert(t, e, sync)
    case Delete(slug) => Deleted(t, slug)
    case Restore(slug, version, editor, sync) => Restored(t, slug, version, editor, sync)
  }

  function After(t: Tables, ops: seq<Op>): Tables
    decreases ops
  {
    if ops == [] then t else After(Do(t, ops[0]), ops[1..])
  }

  lemma {:induction false} DoKeepsConsistent(t: Tables, op: Op)
    requires Consistent(t)
    ensures Consistent(Do(t, op))
  {
    match op
    case Save(e, sync) => UpsertKeepsConsistent(t, e, sync);
    case Delete(slug) => DeleteKeepsConsistent(t, slug);
    case Restore(slug, version, editor, sync) =>
      var r := FindRevision(t, slug, version);
      if r.Some? {
        UpsertKeepsConsistent(t, RestoreEdit(slug, r.value, editor), sync);
      }
  }

  /** In every state that any operations lead to from an empty wiki, the versions of a live page are
      exactly 1 to n and the page shows revision n. */
  lemma {:induction false} WikiStaysConsistent(t: Tables, ops: seq<Op>)
    requires Consistent(t)
    ensures Consistent(After(t, ops))
    decreases ops
  {
    if ops != [] {
      DoKeepsConsistent(t, ops[0]);
      WikiStaysConsistent(Do(t, ops[0]), ops[1..]);
    }
  }

  lemma {:induction false} EmptyWikiIsConsistent()
    ensures Consistent(Tables(map[], [], map[], 0))
  {
  }

  ghost predicate Keeps(ops: seq<Op>, slug: string)
  {
    forall i :: 0 <= i < |ops| ==> ops[i] != Delete(slug)
  }

  /** The page's revisions, oldest first. */
  function HistoryOf(t: Tables, slug: string): seq<Revision>
    requires slug in t.pages
  {
    RevisionsOf(t.revisions, t.pages[slug].id)
  }

  lemma {:induction false} WriteGrows(t: Tables, e: Edit, sync: Sync, slug: string)
    requires Consistent(t) && slug in t.pages
    ensures slug in Upsert(t, e, sync).pages && HistoryOf(t, slug) <= HistoryOf(Upsert(t, e, sync), slug)
  {
    if slug == e.slug {
      WriteAppends(t, e);
    } else {
      WriteLeavesOthers(t, e, slug);
    }
  }

  lemma {:induction false} DoGrows(t: Tables, op: Op, slug: string)
    requires Consistent(t) && slug in t.pages && op != Delete(slug)
    ensures slug in Do(t, op).pages && HistoryOf(t, slug) <= HistoryOf(Do(t, op), slug)
  {
    match op
    case Save(e, sync) => WriteGrows(t, e, sync, slug);
    case Delete(other) =>
      if other in t.pages {
        DeleteKeepsSound(t, other, slug);
      }
    case Restore(other, version, editor, sync) =>
      var r := FindRevision(t, other, version);
      if r.Some? {
        WriteGrows(t, RestoreEdit(other, r.value, editor), sync, slug);
      }
  }

  /** Append-only: as long as a page is not deleted, no revision of it ever changes or disappears,
      whatever is saved, restored or deleted. */
  lemma {:induction false} HistoryOnlyGrows(t: Tables, ops: seq<Op>, slug: string)
    requires Consistent(t) && slug in t.pages && Keeps(ops, slug)
    ensures slug in After(t, ops).pages && HistoryOf(t, slug) <= HistoryOf(After(t, ops), slug)
    decreases ops
  {
    if ops != [] {
      DoGrows(t, ops[0], slug);
      DoKeepsConsistent(t, ops[0]);
      HistoryOnlyGrows(Do(t, ops[0]), ops[1..], slug);
    }
  }

  // ---------- restoring ----------

  lemma {:induction false} FindNumbered(rows: seq<Revision>, from: nat, version: int)
    requires forall k :: 0 <= k < |rows| ==> rows[k].version == from + k + 1
    ensures FindVersion(rows, version)
         == if from < version <= from + |rows| then Some(rows[version - from - 1]) else None
  {
    if rows != [] && rows[0].version != version {
      FindNumbered(rows[1..], from + 1, version);
    }
  }

  /** A version can be restored exactly if it is one of 1 to n. Restoring appends revision n + 1, with the
      title and text of the old one, and the page shows it; nothing else is lost. */
  lemma {:induction false} RestoreAppends(t: Tables, slug: string, version: int, editor: string, sync: Sync)
    requires Consistent(t) && slug in t.pages
    ensures var rows, t' := HistoryOf(t, slug), Restored(t, slug, version, editor, sync);
            if 1 <= version <= |rows| then
              slug in t'.pages
              && HistoryOf(t', slug) == rows + [Revision(t.pages[slug].id, |rows| + 1, rows[version - 1].title,
                                                         rows[version - 1].content, editor)]
              && t'.pages[slug] == Page(t.pages[slug].id, rows[version - 1].title, rows[version - 1].content, None,
                                        editor)
            else t' == t
  {
    assert Sound(t, slug);
    var rows := HistoryOf(t, slug);
    FindNumbered(rows, 0, version);
    if 1 <= version <= |rows| {
      var r := rows[version - 1];
      WriteAppends(t, RestoreEdit(slug, r, editor));
      RowsAreRevisions(t.revisions, t.pages[slug].id, r);
    }
  }

  lemma {:induction false} RowsAreRevisions(rows: seq<Revision>, page: nat, r: Revision)
    ensures r in RevisionsOf(rows, page) ==> r in rows && r.page == page
  {
    if rows != [] {
      RowsAreRevisions(rows[1..], page, r);
    }
  }

  /** Restoring an old version and then the one that was current gives the title and text back. */
  lemma {:induction false} RestoreIsUndoable(t: Tables, slug: string, version: int, editor: string, sync: Sync)
    requires Consistent(t) && slug in t.pages && 1 <= version <= |HistoryOf(t, slug)|
    ensures var t1 := Restored(t, slug, version, editor, sync);
            var t2 := Restored(t1, slug, |HistoryOf(t, slug)|, editor, sync);
            slug in t2.pages && t2.pages[slug].title == t.pages[slug].title
            && t2.pages[slug].content == t.pages[slug].content
            && |HistoryOf(t2, slug)| == |HistoryOf(t, slug)| + 2
  {
    var n := |HistoryOf(t, slug)|;
    RestoreAppends(t, slug, version, editor, sync);
    DoKeepsConsistent(t, Restore(slug, version, editor, sync));
    RestoreAppends(Restored(t, slug, version, editor, sync), slug, n, editor, sync);
    assert Sound(t, slug);
  }

  /** Restoring names no parent: the page keeps its place in the tree exactly if it is at the top. */
  lemma {:induction false} RestoreKeepsParentExactly(t: Tables, slug: string, version: int, editor: string, sync: Sync)
    requires Consistent(t) && slug in t.pages && 1 <= version <= |HistoryOf(t, slug)|
    ensures var t' := Restored(t, slug, version, editor, sync);
            slug in t'.pages && (t'.pages[slug].parent == t.pages[slug].parent <==> t.pages[slug].parent == None)
  {
    RestoreAppends(t, slug, version, editor, sync);
  }

  // ---------- the history listing ----------

  lemma {:induction false} ReversedAt<T>(s: seq<T>, k: nat)
    requires k < |s|
    ensures |Reversed(s)| == |s| && Reversed(s)[k] == s[|s| - 1 - k]
  {
    if |s| > 1 {
      ReversedAt(s[1..], if k < |s| - 1 then k else 0);
    }
  }

  /** The listing, newest first, has the versions n down to 1. */
  lemma {:induction false} HistoryCountsDown(t: Tables, slug: string, k: nat)
    requires Consistent(t) && slug in t.pages && k < |HistoryOf(t, slug)|
    ensures var listing := Reversed(HistoryOf(t, slug));
            |listing| == |HistoryOf(t, slug)| && listing[k].version == |listing| - k
  {
    assert Sound(t, slug);
    ReversedAt(HistoryOf(t, slug), k);
  }

  // ---------- chunks ----------

  /** Re-embedding visits only pages that have no chunks at all. */
  function Reconciled(t: Tables, slug: string, sync: Sync): Tables
    requires slug in t.pages
  {
    var page := t.pages[slug];
    if page.id in t.chunks && t.chunks[page.id] != [] then t
    else t.(chunks := ChunksAfter(t.chunks, page.id, page.content, sync))
  }

  /** After an edit whose embedding stopped after n chunks, re-embedding completes the page's chunks exactly
      if none or all were stored; a page with some of its chunks stays that way. */
  lemma {:induction false} ReconcileHealsExactly(t: Tables, e: Edit, n: nat)
    ensures var t', all := Upsert(t, e, Stored(n)), Chunking.Chunks(e.content, CHUNK_TARGET);
            var t'', id := Reconciled(t', e.slug, Stored(|all|)), PageIdFor(t, e.slug);
            id in t''.chunks && (t''.chunks[id] == all <==> n == 0 || n >= |all|)
  {
    var all := Chunking.Chunks(e.content, CHUNK_TARGET);
    assert FirstChunks(all, |all|) == all;
    if n < |all| {
      assert |FirstChunks(all, n)| == n;
    }
  }
}
