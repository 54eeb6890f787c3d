/** Cloud import, first half: walking the remote folder tree, classifying every media file against the
    items already known, and handing the rest to the download workers. */
module ImportListing {

  import opened Common

  type RemoteId = nat
  type JobId = nat

  /** `media` tells whether the MIME type is one the import takes. */
  datatype RemoteFile = RemoteFile(id: RemoteId, media: bool, checksum: Option<nat>)

  /** What the provider serves for a folder: its pages in order. */
  datatype Folder = Folder(pages: seq<Page>)
  datatype Page = Page(files: seq<RemoteFile>, subfolders: seq<Folder>)

  datatype ItemStatus = Pending | Downloading | Done | SkippedDuplicate | Failed

  datatype Item = Item(job: JobId, status: ItemStatus, checksum: Option<nat>)

  datatype JobStatus = Listing | Importing | JobDone | JobFailed | Cancelled

  // --- the media files of a tree ---

  function Media(files: seq<RemoteFile>): seq<RemoteFile> {
    if files == [] then []
    else (if files[0].media then [files[0]] else []) + Media(files[1..])
  }

  function PagesMedia(pages: seq<Page>): seq<RemoteFile> {
    if pages == [] then [] else Media(pages[0].files) + PagesMedia(pages[1..])
  }

  /** Only the MIME type decides. */
  lemma {:induction false} MediaMeans(files: seq<RemoteFile>, f: RemoteFile)
    ensures multiset(Media(files))[f] == if f.media then multiset(files)[f] else 0
  {
    if files != [] {
      MediaMeans(files[1..], f);
      assert files == [files[0]] + files[1..];
    }
  }

  /** Reference definition: every media file of the folder and, when recursive, of everything below. */
  ghost function TreeMedia(f: Folder, recursive: bool): multiset<RemoteFile>
    decreases f, 1
  {
    multiset(PagesMedia(f.pages)) + if recursive then BelowPages(f.pages) else multiset{}
  }

  ghost function BelowPages(pages: seq<Page>): multiset<RemoteFile>
    decreases pages, 0
  {
    if pages == [] then multiset{} else ForestMedia(pages[0].subfolders, true) + BelowPages(pages[1..])
  }

  ghost function ForestMedia(fs: seq<Folder>, recursive: bool): multiset<RemoteFile>
    decreases fs, 0
  {
    if fs == [] then multiset{} else TreeMedia(fs[0], recursive) + ForestMedia(fs[1..], recursive)
  }

  ghost function Size(f: Folder): nat
    decreases f, 1
  {
    1 + PagesSize(f.pages)
  }

  ghost function PagesSize(pages: seq<Page>): nat
    decreases pages, 0
  {
    if pages == [] then 0 else ForestSize(pages[0].subfolders) + PagesSize(pages[1..])
  }

  ghost function ForestSize(fs: seq<Folder>): nat
    decreases fs, 0
  {
    if fs == [] then 0 else Size(fs[0]) + ForestSize(fs[1..])
  }

  lemma {:induction false} ForestConcat(a: seq<Folder>, b: seq<Folder>, recursive: bool)
    ensures ForestMedia(a + b, recursive) == ForestMedia(a, recursive) + ForestMedia(b, recursive)
    ensures ForestSize(a + b) == ForestSize(a) + ForestSize(b)
  {
    if a == [] {
      assert a + b == b;
    } else {
      assert (a + b)[1..] == a[1..] + b;
      ForestConcat(a[1..], b, recursive);
    }
  }

  // --- classification of one file ---

  predicate Unchanged(known: Item, f: RemoteFile) {
    && (known.status == Done || known.status == SkippedDuplicate)
    && known.checksum == f.checksum && f.checksum.Some?
  }

  predicate Skips(items: map<RemoteId, Item>, f: RemoteFile) {
    f.id in items && Unchanged(items[f.id], f)
  }

  function Listed(items: map<RemoteId, Item>, job: JobId, f: RemoteFile): Item {
    if Skips(items, f) then Item(job, SkippedDuplicate, items[f.id].checksum) else Item(job, Pending, f.checksum)
  }

  /** All files classified one after the other. */
  function ListAll(items: map<RemoteId, Item>, job: JobId, files: seq<RemoteFile>): map<RemoteId, Item> {
    if files == [] then items
    else
      var last := files[|files| - 1];
      var before := ListAll(items, job, files[..|files| - 1]);
      before[last.id := Listed(before, job, last)]
  }

  function CountSkipped(items: map<RemoteId, Item>, files: seq<RemoteFile>): nat {
    if files == [] then 0
    else CountSkipped(items, files[..|files| - 1]) + if Skips(items, files[|files| - 1]) then 1 else 0
  }

  ghost predicate DistinctIds(files: seq<RemoteFile>) {
    forall i, j :: 0 <= i < j < |files| ==> files[i].id != files[j].id
  }

  ghost function Ids(files: seq<RemoteFile>): set<RemoteId> {
    if files == [] then {} else Ids(files[..|files| - 1]) + {files[|files| - 1].id}
  }

  lemma {:induction false} IdsMeans(files: seq<RemoteFile>, id: RemoteId)
    ensures id in Ids(files) <==> exists i :: 0 <= i < |files| && files[i].id == id
  {
    if files != [] {
      var front := files[..|files| - 1];
      IdsMeans(front, id);
      if id in Ids(front) {
        var i :| 0 <= i < |front| && front[i].id == id;
        assert files[i].id == id;
      }
      assert forall i :: 0 <= i < |front| ==> front[i] == files[i];
    }
  }

  /** With distinct ids each file is judged against the item as it was before the listing, and every
      listed id ends up pointing at the job, pending or skipped. */
  lemma {:induction false} ListAllMeans(items: map<RemoteId, Item>, job: JobId, files: seq<RemoteFile>)
    requires DistinctIds(files)
    ensures var r := ListAll(items, job, files);
            && r.Keys == items.Keys + Ids(files)
            && (forall id :: id in items && id !in Ids(files) ==> r[id] == items[id])
            && (forall id :: id in Ids(files) ==> r[id].job == job && (r[id].status == Pending || r[id].status == SkippedDuplicate))
            && (forall i :: 0 <= i < |files| ==> files[i].id in Ids(files) && r[files[i].id] == Listed(items, job, files[i]))
  {
    if files != [] {
      var front, last := files[..|files| - 1], files[|files| - 1];
      ListAllMeans(items, job, front);
      IdsMeans(front, last.id);
      assert last.id !in Ids(front);
      var before := ListAll(items, job, front);
      assert Listed(before, job, last) == Listed(items, job, last);
      assert forall i :: 0 <= i < |front| ==> front[i] == files[i];
    }
  }

  /** What a listing makes of a file: skipped if its content is known to be in the event, under the same
      checksum, and otherwise pending with the checksum it has now, be it new, edited, failed before or
      without a checksum. */
  ghost predicate Classified(before: map<RemoteId, Item>, job: JobId, f: RemoteFile, after: map<RemoteId, Item>) {
    && f.id in after && after[f.id].job == job && after[f.id].checksum == f.checksum
    && (after[f.id].status == SkippedDuplicate <==>
          && f.id in before && (before[f.id].status == Done || before[f.id].status == SkippedDuplicate)
          && f.checksum.Some? && before[f.id].checksum == f.checksum)
    && (after[f.id].status == Pending || after[f.id].status == SkippedDuplicate)
  }

  /** Every listed file is classified, every other item stays as it was. */
  ghost predicate AllClassified(before: map<RemoteId, Item>, job: JobId, files: seq<RemoteFile>, after: map<RemoteId, Item>) {
    && (forall i :: 0 <= i < |files| ==> Classified(before, job, files[i], after))
    && (forall id :: id in before && id !in Ids(files) ==> id in after && after[id] == before[id])
    && (forall id :: id in after && id !in before ==> id in Ids(files))
  }

  lemma {:induction false} ListingClassifies(items: map<RemoteId, Item>, job: JobId, files: seq<RemoteFile>)
    requires DistinctIds(files)
    ensures AllClassified(items, job, files, ListAll(items, job, files))
    ensures CountSkipped(items, files) == |SkippedIn(ListAll(items, job, files), Ids(files))|
  {
    ListAllMeans(items, job, files);
    CountsAdd(items, job, files);
    forall i | 0 <= i < |files| ensures Classified(items, job, files[i], ListAll(items, job, files)) {
      assert ListAll(items, job, files)[files[i].id] == Listed(items, job, files[i]);
    }
  }

  function PendingOf(items: map<RemoteId, Item>, job: JobId): set<RemoteId> {
    set id | id in items && items[id].job == job && items[id].status == Pending
  }

  ghost function ItemsOf(items: map<RemoteId, Item>, job: JobId): set<RemoteId> {
    set id | id in items && items[id].job == job
  }

  ghost function SkippedOf(items: map<RemoteId, Item>, job: JobId): set<RemoteId> {
    set id | id in items && items[id].job == job && items[id].status == SkippedDuplicate
  }

  ghost function SkippedIn(r: map<RemoteId, Item>, ids: set<RemoteId>): set<RemoteId> {
    set id | id in ids && id in r && r[id].status == SkippedDuplicate
  }

  lemma {:induction false} SkippedGrows(r: map<RemoteId, Item>, ids: set<RemoteId>, id: RemoteId, item: Item)
    requires id !in ids
    ensures |ids + {id}| == |ids| + 1
    ensures |SkippedIn(r[id := item], ids + {id})| == |SkippedIn(r, ids)| + if item.status == SkippedDuplicate then 1 else 0
  {
    assert SkippedIn(r[id := item], ids + {id}) == SkippedIn(r, ids) + if item.status == SkippedDuplicate then {id} else {};
  }

  lemma {:induction false} CountsAdd(items: map<RemoteId, Item>, job: JobId, files: seq<RemoteFile>)
    requires DistinctIds(files)
    ensures |Ids(files)| == |files|
    ensures |SkippedIn(ListAll(items, job, files), Ids(files))| == CountSkipped(items, files)
  {
    if files != [] {
      var front, last := files[..|files| - 1], files[|files| - 1];
      CountsAdd(items, job, front);
      ListAllMeans(items, job, front);
      IdsMeans(front, last.id);
      assert last.id !in Ids(front);
      var before := ListAll(items, job, front);
      SkippedGrows(before, Ids(front), last.id, Listed(before, job, last));
    }
  }

  /** What the listing leaves for the workers: the job's items are exactly the listed files, each
      pending or skipped, and the totals count them. Items an earlier, interrupted listing already
      pointed at this job are allowed if their files are listed again. */
  lemma {:induction false} ListingCounts(items: map<RemoteId, Item>, job: JobId, files: seq<RemoteFile>)
    requires DistinctIds(files) && ItemsOf(items, job) <= Ids(files)
    ensures var r := ListAll(items, job, files);
            && ItemsOf(r, job) == Ids(files) && |ItemsOf(r, job)| == |files|
            && ItemsOf(r, job) == PendingOf(r, job) + SkippedOf(r, job)
            && |SkippedOf(r, job)| == CountSkipped(items, files)
  {
    ListAllMeans(items, job, files);
    CountsAdd(items, job, files);
    ListedSets(items, ListAll(items, job, files), job, Ids(files));
  }

  lemma {:induction false} ListedSets(items: map<RemoteId, Item>, r: map<RemoteId, Item>, job: JobId, ids: set<RemoteId>)
    requires ItemsOf(items, job) <= ids
    requires forall id :: id in ids ==> id in r && r[id].job == job && (r[id].status == Pending || r[id].status == SkippedDuplicate)
    requires forall id :: id in r && id !in ids ==> id in items && r[id] == items[id]
    ensures ItemsOf(r, job) == ids && ids == PendingOf(r, job) + SkippedOf(r, job) && SkippedOf(r, job) == SkippedIn(r, ids)
  {
  }

  /** Every listed item has been imported or linked since, its checksum as the listing left it. */
  ghost predicate Synced(listed: map<RemoteId, Item>, after: map<RemoteId, Item>, files: seq<RemoteFile>) {
    forall i :: 0 <= i < |files| ==>
      && files[i].id in listed && files[i].id in after
      && after[files[i].id].checksum == listed[files[i].id].checksum
      && (after[files[i].id].status == Done || after[files[i].id].status == SkippedDuplicate)
  }

  /** Incremental re-sync: listing an unchanged tree again after everything was imported downloads
      nothing but the files the provider gives no checksum for. */
  lemma {:induction false} ResyncSkips(items: map<RemoteId, Item>, job: JobId, files: seq<RemoteFile>, after: map<RemoteId, Item>, job': JobId, i: nat)
    requires DistinctIds(files) && Synced(ListAll(items, job, files), after, files) && i < |files|
    ensures var r := ListAll(after, job', files);
            && files[i].id in r
            && r[files[i].id].status == (if files[i].checksum.Some? then SkippedDuplicate else Pending)
            && Skips(after, files[i]) == files[i].checksum.Some?
  {
    ListAllMeans(items, job, files);
    ListAllMeans(after, job', files);
    assert ListAll(items, job, files)[files[i].id] == Listed(items, job, files[i]);
    assert ListAll(after, job', files)[files[i].id] == Listed(after, job', files[i]);
  }

  // --- listing in several pages ---

  lemma {:induction false} ListAllConcat(items: map<RemoteId, Item>, job: JobId, a: seq<RemoteFile>, b: seq<RemoteFile>)
    ensures ListAll(ListAll(items, job, a), job, b) == ListAll(items, job, a + b)
  {
    if b == [] {
      assert a + b == a;
    } else {
      assert (a + b)[..|a + b| - 1] == a + b[..|b| - 1];
      ListAllConcat(items, job, a, b[..|b| - 1]);
    }
  }

  lemma {:induction false} CountSkippedConcat(items: map<RemoteId, Item>, job: JobId, a: seq<RemoteFile>, b: seq<RemoteFile>)
    requires DistinctIds(a + b)
    ensures CountSkipped(items, a) + CountSkipped(ListAll(items, job, a), b) == CountSkipped(items, a + b)
  {
    if b == [] {
      assert a + b == a;
    } else {
      var front, last := b[..|b| - 1], b[|b| - 1];
      assert (a + b)[..|a + b| - 1] == a + front;
      CountSkippedConcat(items, job, a, front);
      assert DistinctIds(a) by { assert forall i :: 0 <= i < |a| ==> (a + b)[i] == a[i]; }
      ListAllMeans(items, job, a);
      IdsMeans(a, last.id);
      assert last.id !in Ids(a) by { assert (a + b)[|a + b| - 1] == last; assert forall i :: 0 <= i < |a| ==> (a + b)[i] == a[i]; }
    }
  }

  /** The files of a listing have pairwise distinct remote ids. */
  ghost predicate UniqueIds(m: multiset<RemoteFile>) {
    && (forall f :: m[f] <= 1)
    && (forall f, g :: f in m && g in m && f.id == g.id ==> f == g)
  }

  lemma {:induction false} UniqueMeansDistinct(files: seq<RemoteFile>, m: multiset<RemoteFile>)
    requires UniqueIds(m) && multiset(files) <= m
    ensures DistinctIds(files)
  {
    forall i, j | 0 <= i < j < |files| ensures files[i].id != files[j].id {
      assert files == files[..i] + [files[i]] + files[i + 1..j] + [files[j]] + files[j + 1..];
      assert files[i] == files[j] ==> multiset(files)[files[i]] >= 2;
      assert files[i] in multiset(files) && files[j] in multiset(files);
    }
  }

  /** One more file of a page with distinct ids is judged against the items as the page found them. */
  lemma {:induction false} ListStep(known: map<RemoteId, Item>, job: JobId, files: seq<RemoteFile>, i: nat)
    requires DistinctIds(files) && i < |files|
    ensures ListAll(known, job, files[..i + 1]) == ListAll(known, job, files[..i])[files[i].id := Listed(known, job, files[i])]
    ensures CountSkipped(known, files[..i + 1]) == CountSkipped(known, files[..i]) + if Skips(known, files[i]) then 1 else 0
  {
    var front, longer := files[..i], files[..i + 1];
    assert longer[..i] == front && longer[i] == files[i];
    ListAllMeans(known, job, front);
    IdsMeans(front, files[i].id);
    assert Listed(ListAll(known, job, front), job, files[i]) == Listed(known, job, files[i]);
  }

  lemma {:induction false} PutEither(m: map<RemoteId, Item>, n: map<RemoteId, Item>, id: RemoteId, item: Item)
    requires m.Keys !! n.Keys
    ensures id in m ==> m[id := item] + n == (m + n)[id := item] && m[id := item].Keys == m.Keys
    ensures id !in m ==> m + n[id := item] == (m + n)[id := item] && n[id := item].Keys !! m.Keys
  {
  }

  // --- the listing itself ---

  class ImportService {
    var items: map<RemoteId, Item>
    var status: JobStatus
    var totalFiles: nat
    var doneFiles: nat
    var skippedFiles: nat
    var failedFiles: nat
    // items handed to ImportFile workers
    var queued: set<RemoteId>

    constructor (items: map<RemoteId, Item>)
      ensures this.items == items && status == Listing && queued == {}
      ensures totalFiles == doneFiles == skippedFiles == failedFiles == 0
    {
      this.items, status, queued := items, Listing, {};
      totalFiles, doneFiles, skippedFiles, failedFiles := 0, 0, 0, 0;
    }

    /** `upsertListingPage`: known items are read once for the page, new ones inserted at the end. */
    method UpsertListingPage(job: JobId, files: seq<RemoteFile>) returns (listed: nat, skipped: nat)
      requires DistinctIds(files)
      modifies this`items
      ensures items == ListAll(old(items), job, files)
      ensures listed == |files| && skipped == CountSkipped(old(items), files)
      ensures AllClassified(old(items), job, files, items) && skipped == |SkippedIn(items, Ids(files))|
    {
      ListingClassifies(items, job, files);
      var byRemoteId := items;
      var toInsert: map<RemoteId, Item> := map[];
      skipped := 0;
      for i := 0 to |files|
        invariant skipped == CountSkipped(byRemoteId, files[..i])
        invariant items.Keys == byRemoteId.Keys && toInsert.Keys !! items.Keys
        invariant items + toInsert == ListAll(byRemoteId, job, files[..i])
      {
        var file := files[i];
        ListStep(byRemoteId, job, files, i);
        PutEither(items, toInsert, file.id, Listed(byRemoteId, job, file));
        if file.id !in byRemoteId {
          toInsert := toInsert[file.id := Item(job, Pending, file.checksum)];
        } else if Unchanged(byRemoteId[file.id], file) {
          items := items[file.id := Item(job, SkippedDuplicate, byRemoteId[file.id].checksum)];
          skipped := skipped + 1;
        } else {
          items := items[file.id := Item(job, Pending, file.checksum)];
        }
      }
      assert files[..|files|] == files;
      items := items + toInsert;
      listed := |files|;
    }

    /** The state of the walk: `files` have been listed so far. */
    ghost predicate Progress(before: map<RemoteId, Item>, job: JobId, files: seq<RemoteFile>, listed: nat, skipped: nat)
      reads this
    {
      items == ListAll(before, job, files) && listed == |files| && skipped == CountSkipped(before, files)
    }

    method ListPage(job: JobId, page: Page, ghost before: map<RemoteId, Item>, ghost files: seq<RemoteFile>,
                    listed: nat, skipped: nat) returns (listed': nat, skipped': nat)
      requires Progress(before, job, files, listed, skipped)
      requires DistinctIds(files + Media(page.files))
      modifies this`items
      ensures Progress(before, job, files + Media(page.files), listed', skipped')
    {
      var media := Media(page.files);
      assert DistinctIds(media) by { assert forall i :: 0 <= i < |media| ==> (files + media)[|files| + i] == media[i]; }
      var l, k := UpsertListingPage(job, media);
      listed', skipped' := listed + l, skipped + k;
      ListAllConcat(before, job, files, media);
      CountSkippedConcat(before, job, files, media);
    }

    /** All pages of one folder; its subfolders join the queue as they are met. */
    method ListFolder(job: JobId, folder: Folder, recursive: bool, folderQueue: seq<Folder>, ghost before: map<RemoteId, Item>,
                      ghost files: seq<RemoteFile>, listed: nat, skipped: nat, ghost all: multiset<RemoteFile>)
      returns (folderQueue': seq<Folder>, listed': nat, skipped': nat, ghost files': seq<RemoteFile>)
      requires Progress(before, job, files, listed, skipped) && UniqueIds(all)
      requires Balanced(files, folder.pages, folderQueue, recursive, all)
      modifies this`items
      ensures Progress(before, job, files', listed', skipped')
      ensures Balanced(files', [], folderQueue', recursive, all)
      ensures ForestSize(folderQueue') < ForestSize(folderQueue) + Size(folder)
    {
      folderQueue', listed', skipped', files' := folderQueue, listed, skipped, files;
      assert folder.pages[0..] == folder.pages;
      for k := 0 to |folder.pages|
        invariant Progress(before, job, files', listed', skipped')
        invariant Balanced(files', folder.pages[k..], folderQueue', recursive, all)
        invariant ForestSize(folderQueue') + PagesSize(folder.pages[k..]) < ForestSize(folderQueue) + Size(folder)
      {
        var page := folder.pages[k];
        assert folder.pages[k..][1..] == folder.pages[k + 1..];
        TakePage(files', folder.pages[k..], folderQueue', recursive, all);
        if recursive {
          ForestConcat(folderQueue', page.subfolders, recursive);
          folderQueue' := folderQueue' + page.subfolders;
        }
        listed', skipped' := ListPage(job, page, before, files', listed', skipped');
        files' := files' + Media(page.files);
      }
    }

    /** `handleImportFolder`: walks the tree breadth first, page by page. Whatever the order, the items
        end up as if every media file of the tree had been classified once, the counters count them,
        and exactly the job's pending items are handed to workers. A cancelled job is left alone. */
    method HandleImportFolder(job: JobId, root: Folder, recursive: bool) returns (ghost files: seq<RemoteFile>)
      requires UniqueIds(TreeMedia(root, recursive))
      modifies this
      ensures old(status) == Cancelled ==> unchanged(this)
      ensures old(status) != Cancelled ==>
                && multiset(files) == TreeMedia(root, recursive) && DistinctIds(files)
                && items == ListAll(old(items), job, files)
                && totalFiles == |files| && skippedFiles == CountSkipped(old(items), files)
                && queued == PendingOf(items, job)
                && status == (if queued == {} then JobDone else Importing)
                && doneFiles == old(doneFiles) && failedFiles == old(failedFiles)
      ensures old(status) != Cancelled ==>
                && AllClassified(old(items), job, files, items) && skippedFiles == |SkippedIn(items, Ids(files))|
                && (forall i :: 0 <= i < |files| ==> (files[i].id in queued <==> items[files[i].id].status == Pending))
    {
      files := [];
      if status == Cancelled {
        return;
      }
      var listed, skipped := 0, 0;
      var folderQueue := [root];
      ghost var all := TreeMedia(root, recursive);
      BalancedStart(root, recursive);
      while folderQueue != []
        invariant Progress(old(items), job, files, listed, skipped)
        invariant Balanced(files, [], folderQueue, recursive, all)
        modifies this`items
        decreases ForestSize(folderQueue)
      {
        PopFolder(files, folderQueue, recursive, all);
        var folder := folderQueue[0];
        folderQueue := folderQueue[1..];
        folderQueue, listed, skipped, files := ListFolder(job, folder, recursive, folderQueue, old(items), files, listed, skipped, all);
      }
      BalancedEnd(files, recursive, all);
      ListingClassifies(old(items), job, files);
      var pending := PendingOf(items, job);
      status, totalFiles, skippedFiles := if pending != {} then Importing else JobDone, listed, skipped;
      queued := pending;
    }
  }

  /** What the pages not yet read hold, subfolders included. */
  ghost function Unlisted(pages: seq<Page>, recursive: bool): multiset<RemoteFile> {
    multiset(PagesMedia(pages)) + if recursive then BelowPages(pages) else multiset{}
  }

  /** Listed files, pages still to read and folders still queued make up the whole tree. */
  ghost predicate Balanced(files: seq<RemoteFile>, pages: seq<Page>, queue: seq<Folder>, recursive: bool, all: multiset<RemoteFile>) {
    multiset(files) + Unlisted(pages, recursive) + ForestMedia(queue, recursive) == all
  }

  lemma {:induction false} BalancedStart(root: Folder, recursive: bool)
    ensures Balanced([], [], [root], recursive, TreeMedia(root, recursive))
  {
  }

  lemma {:induction false} BalancedEnd(files: seq<RemoteFile>, recursive: bool, all: multiset<RemoteFile>)
    requires Balanced(files, [], [], recursive, all) && UniqueIds(all)
    ensures multiset(files) == all && DistinctIds(files)
  {
    UniqueMeansDistinct(files, all);
  }

  lemma {:induction false} PopFolder(files: seq<RemoteFile>, queue: seq<Folder>, recursive: bool, all: multiset<RemoteFile>)
    requires Balanced(files, [], queue, recursive, all) && queue != []
    ensures Balanced(files, queue[0].pages, queue[1..], recursive, all)
    ensures ForestSize(queue) == Size(queue[0]) + ForestSize(queue[1..])
  {
    assert Unlisted(queue[0].pages, recursive) == TreeMedia(queue[0], recursive);
  }

  lemma {:induction false} Rearrange<T>(f: multiset<T>, m: multiset<T>, b: multiset<T>, u: multiset<T>, q: multiset<T>, all: multiset<T>)
    requires f + ((m + b) + u) + q == all
    ensures (f + m) + u + (q + b) == all && f + m <= all
  {
  }

  lemma {:induction false} TakePage(files: seq<RemoteFile>, pages: seq<Page>, queue: seq<Folder>, recursive: bool, all: multiset<RemoteFile>)
    requires Balanced(files, pages, queue, recursive, all) && pages != [] && UniqueIds(all)
    ensures Balanced(files + Media(pages[0].files), pages[1..], if recursive then queue + pages[0].subfolders else queue, recursive, all)
    ensures DistinctIds(files + Media(pages[0].files))
  {
    var media := Media(pages[0].files);
    var below := if recursive then ForestMedia(pages[0].subfolders, true) else multiset{};
    Rearrange(multiset(files), multiset(media), below, Unlisted(pages[1..], recursive), ForestMedia(queue, recursive), all);
    assert multiset(files + media) == multiset(files) + multiset(media);
    ForestConcat(queue, pages[0].subfolders, true);
    UniqueMeansDistinct(files + media, all);
  }
}
