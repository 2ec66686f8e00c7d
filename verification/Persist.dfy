/** The persist transaction of an ingest: pages, blocks and chunks, and the coverage status every
    block ends in. */
module Persist {
  import opened Base
  import opened Text
  import opened Chunker

  const CHUNK_TARGET_CHARS: nat := 800
  const CHUNK_OVERLAP_CHARS: nat := 120
  const FALLBACK_PAGE_NO: int := 1
  const DEFAULT_CONFIDENCE: real := 0.9

  datatype ParsedBlock = ParsedBlock(page: int, content: string, confidence: Option<real>)

  /** What the parser returned; `totalPages` counts the source's pages before any cap. */
  datatype ParsedDoc = ParsedDoc(pages: seq<int>, blocks: seq<ParsedBlock>, totalPages: int)

  datatype Status = Parsed | Indexed | Skipped | LowConfidence

  datatype Prepared = Prepared(id: Uuid, pageNo: int, content: string, status: Status)

  datatype PageRow = PageRow(pageNo: int, needsReview: bool)
  datatype BlockRow = BlockRow(page: Uuid, content: string, status: Status)
  datatype ChunkRow = ChunkRow(block: Uuid, text: string)

  datatype Outcome = Outcome(pages: nat, blocks: nat, chunks: nat, needsReview: bool)

  // ---- Decisions ------------------------------------------------------------------------

  function EffectivePage(page: int): int { if page <= 0 then FALLBACK_PAGE_NO else page }

  predicate HasText(b: ParsedBlock) { Trim(b.content) != [] }

  function Confidence(b: ParsedBlock): real {
    match b.confidence case Some(c) => c case None => DEFAULT_CONFIDENCE
  }

  /** The status a block is inserted with. */
  function InitialStatus(b: ParsedBlock, threshold: real): Status {
    if Confidence(b) < threshold then LowConfidence
    else if HasText(b) then Parsed
    else Skipped
  }

  /** The status a block is meant to end in. */
  function TerminalStatus(b: ParsedBlock, threshold: real): Status {
    if Confidence(b) >= threshold && HasText(b) then Indexed
    else if Confidence(b) < threshold then LowConfidence
    else Skipped
  }

  function ChunksOf(content: string): seq<string> {
    Chunks(content, CHUNK_TARGET_CHARS, CHUNK_OVERLAP_CHARS)
  }

  /** Which pages exist: those the parser listed and those a block was put on. */
  ghost function PageNumbers(doc: ParsedDoc): set<int> {
    (set p | p in doc.pages) + (set b | b in doc.blocks :: EffectivePage(b.page))
  }

  /** The document is not covered: a block had no page, pages were cut off, there is nothing at
      all, or a listed page has no block. */
  ghost predicate Uncovered(doc: ParsedDoc) {
    || (exists b :: b in doc.blocks && b.page <= 0)
    || doc.totalPages > |doc.pages|
    || (doc.pages == [] && doc.blocks == [])
    || (exists p :: p in doc.pages && EmptyPage(doc, p))
  }

  ghost predicate EmptyPage(doc: ParsedDoc, p: int) {
    forall b :: b in doc.blocks ==> EffectivePage(b.page) != p
  }

  // ---- Before the transaction --------------------------------------------------------------

  /** How many blocks are on page `p`. */
  ghost function OnPage(blocks: seq<ParsedBlock>, p: int): nat {
    if blocks == [] then 0
    else OnPage(blocks[..|blocks| - 1], p) + (if EffectivePage(blocks[|blocks| - 1].page) == p then 1 else 0)
  }

  /** Only non-empty pages have an entry. */
  ghost predicate Counted(blocks: seq<ParsedBlock>, perPage: map<int, nat>) {
    && (forall p :: p in perPage <==> OnPage(blocks, p) > 0)
    && (forall p :: p in perPage ==> perPage[p] == OnPage(blocks, p))
  }

  method CountBlocks(blocks: seq<ParsedBlock>) returns (perPage: map<int, nat>)
    ensures Counted(blocks, perPage)
  {
    perPage := map[];
    for k := 0 to |blocks|
      invariant Counted(blocks[..k], perPage)
    {
      var page := EffectivePage(blocks[k].page);
      assert blocks[..k + 1][..k] == blocks[..k];
      perPage := perPage[page := (if page in perPage then perPage[page] else 0) + 1];
    }
    assert blocks[..|blocks|] == blocks;
  }

  lemma {:induction false} OnPageEmpty(blocks: seq<ParsedBlock>, p: int)
    ensures OnPage(blocks, p) == 0 <==> forall b :: b in blocks ==> EffectivePage(b.page) != p
  {
    if blocks == [] {
    } else {
      var front, last := blocks[..|blocks| - 1], blocks[|blocks| - 1];
      OnPageEmpty(front, p);
      assert forall b :: b in blocks <==> b in front || b == last;
    }
  }

  ghost predicate Ascending(xs: seq<int>) {
    forall i, j :: 0 <= i < j < |xs| ==> xs[i] < xs[j]
  }

  /** Keeps a sorted list free of duplicates, as sorting and deduplicating the whole list does. */
  function AddPage(xs: seq<int>, p: int): (r: seq<int>) {
    if xs == [] || p < xs[0] then [p] + xs
    else if p == xs[0] then xs
    else [xs[0]] + AddPage(xs[1..], p)
  }

  lemma {:induction false} AddPageSorted(xs: seq<int>, p: int)
    requires Ascending(xs)
    ensures Ascending(AddPage(xs, p)) && forall q :: q in AddPage(xs, p) <==> q == p || q in xs
  {
    if xs != [] && p > xs[0] {
      AddPageSorted(xs[1..], p);
      var rest := AddPage(xs[1..], p);
      forall j | 0 <= j < |rest| ensures xs[0] < rest[j] {
        assert rest[j] in rest;
      }
    }
  }

  /** The parser's pages and every page a block was put on, sorted, without duplicates. */
  method PageList(doc: ParsedDoc) returns (pageNos: seq<int>)
    ensures Ascending(pageNos) && forall p :: p in pageNos <==> p in PageNumbers(doc)
  {
    pageNos := [];
    for k := 0 to |doc.pages|
      invariant Ascending(pageNos) && forall p :: p in pageNos <==> p in doc.pages[..k]
    {
      AddPageSorted(pageNos, doc.pages[k]);
      pageNos := AddPage(pageNos, doc.pages[k]);
    }
    assert doc.pages[..|doc.pages|] == doc.pages;
    for k := 0 to |doc.blocks|
      invariant Ascending(pageNos)
      invariant forall p :: p in pageNos <==>
        p in doc.pages || exists i :: 0 <= i < k && EffectivePage(doc.blocks[i].page) == p
    {
      AddPageSorted(pageNos, EffectivePage(doc.blocks[k].page));
      pageNos := AddPage(pageNos, EffectivePage(doc.blocks[k].page));
    }
    forall p ensures p in pageNos <==> p in PageNumbers(doc) {
      if p in PageNumbers(doc) && p !in doc.pages {
        var b :| b in doc.blocks && EffectivePage(b.page) == p;
        var i :| 0 <= i < |doc.blocks| && doc.blocks[i] == b;
      }
    }
  }

  lemma CountedPages(doc: ParsedDoc, perPage: map<int, nat>)
    requires Counted(doc.blocks, perPage)
    ensures forall p :: p in perPage <==> !EmptyPage(doc, p)
    ensures forall p :: p in perPage ==> perPage[p] > 0
  {
    forall p ensures p in perPage <==> !EmptyPage(doc, p) {
      OnPageEmpty(doc.blocks, p);
    }
  }

  method NeedsReview(doc: ParsedDoc, pageNos: seq<int>, perPage: map<int, nat>) returns (review: bool)
    requires forall p :: p in pageNos ==> p in PageNumbers(doc)
    requires forall p :: p in PageNumbers(doc) ==> p in pageNos
    requires Counted(doc.blocks, perPage)
    ensures review <==> Uncovered(doc)
  {
    CountedPages(doc, perPage);
    var pageless := exists b :: b in doc.blocks && b.page <= 0;
    var truncated := doc.totalPages > |doc.pages|;
    var emptyPage := exists p :: p in pageNos && (if p in perPage then perPage[p] else 0) == 0;
    review := pageless || truncated || pageNos == [] || emptyPage;
    if emptyPage {
      var p :| p in pageNos && p !in perPage;
      assert p in doc.pages && EmptyPage(doc, p);
    }
    if exists p :: p in doc.pages && EmptyPage(doc, p) {
      var p :| p in doc.pages && EmptyPage(doc, p);
      assert p in PageNumbers(doc);
      assert p in pageNos && p !in perPage;
    }
    if doc.blocks != [] {
      assert doc.blocks[0] in doc.blocks;
      assert EffectivePage(doc.blocks[0].page) in PageNumbers(doc);
      assert EffectivePage(doc.blocks[0].page) in pageNos;
    }
    if pageNos != [] {
      var p: int := pageNos[0];
      assert p in pageNos && p in PageNumbers(doc);
    }
    if doc.pages != [] {
      var p: int := doc.pages[0];
      assert p in doc.pages;
      assert p in PageNumbers(doc);
      assert p in pageNos;
    }
  }

  /** The blocks with their pre-assigned ids and initial statuses. */
  ghost function PreparedOf(blocks: seq<ParsedBlock>, ids: seq<Uuid>, threshold: real): (p: seq<Prepared>)
    requires |ids| == |blocks|
    ensures |p| == |blocks|
  {
    seq(|blocks|, k requires 0 <= k < |blocks| =>
      Prepared(ids[k], EffectivePage(blocks[k].page), blocks[k].content, InitialStatus(blocks[k], threshold)))
  }

  method PrepareBlocks(blocks: seq<ParsedBlock>, ids: seq<Uuid>, threshold: real) returns (prepared: seq<Prepared>)
    requires |ids| == |blocks|
    ensures prepared == PreparedOf(blocks, ids, threshold)
  {
    prepared := [];
    for k := 0 to |blocks|
      invariant |prepared| == k
      invariant forall i :: 0 <= i < k ==> prepared[i] == PreparedOf(blocks, ids, threshold)[i]
    {
      var b := blocks[k];
      var status := if Confidence(b) < threshold then LowConfidence else if HasText(b) then Parsed else Skipped;
      prepared := prepared + [Prepared(ids[k], EffectivePage(b.page), b.content, status)];
    }
  }

  // ---- The chunk rows --------------------------------------------------------------------

  ghost function RowsFor(id: Uuid, texts: seq<string>): seq<ChunkRow> {
    seq(|texts|, k requires 0 <= k < |texts| => ChunkRow(id, texts[k]))
  }

  /** One row per chunk of every block still `parsed`, in block order. */
  ghost function ChunkRows(prepared: seq<Prepared>): seq<ChunkRow> {
    if prepared == [] then []
    else
      var pb := prepared[|prepared| - 1];
      ChunkRows(prepared[..|prepared| - 1]) + BlockRows(pb)
  }

  ghost function BlockRows(pb: Prepared): seq<ChunkRow> {
    if pb.status == Parsed then RowsFor(pb.id, ChunksOf(pb.content)) else []
  }

  lemma {:induction false} ChunkRowsHaveBlock(prepared: seq<Prepared>, id: Uuid)
    requires exists row :: row in ChunkRows(prepared) && row.block == id
    ensures exists k :: 0 <= k < |prepared| && prepared[k].id == id && prepared[k].status == Parsed
  {
    var row :| row in ChunkRows(prepared) && row.block == id;
    var front, pb := prepared[..|prepared| - 1], prepared[|prepared| - 1];
    if row in ChunkRows(front) {
      ChunkRowsHaveBlock(front, id);
      var k :| 0 <= k < |front| && front[k].id == id && front[k].status == Parsed;
      assert prepared[k] == front[k];
    } else {
      assert pb.id == id && pb.status == Parsed;
    }
  }

  /** Every block still `parsed` when it is chunked gets at least one chunk row. */
  lemma {:induction false} ParsedBlocksHaveChunks(prepared: seq<Prepared>, k: nat)
    requires k < |prepared| && prepared[k].status == Parsed && Trim(prepared[k].content) != []
    ensures HasChunk(prepared, prepared[k].id)
  {
    var front, pb := prepared[..|prepared| - 1], prepared[|prepared| - 1];
    if k < |front| {
      ParsedBlocksHaveChunks(front, k);
      var row :| row in ChunkRows(front) && row.block == prepared[k].id;
      assert row in ChunkRows(prepared);
    } else {
      ChunksOfBlank(pb.content, CHUNK_TARGET_CHARS, CHUNK_OVERLAP_CHARS);
      var rows := RowsFor(pb.id, ChunksOf(pb.content));
      assert rows[0].block == pb.id;
      assert ChunkRows(prepared)[|ChunkRows(front)|] == rows[0];
    }
  }

  /** Some chunk row refers to block `id`. */
  ghost predicate HasChunk(prepared: seq<Prepared>, id: Uuid) {
    exists row :: row in ChunkRows(prepared) && row.block == id
  }

  lemma ChunkedIsParsed(prepared: seq<Prepared>, k: nat)
    requires DistinctIds(prepared) && k < |prepared| && HasChunk(prepared, prepared[k].id)
    ensures prepared[k].status == Parsed
  {
    ChunkRowsHaveBlock(prepared, prepared[k].id);
    var j :| 0 <= j < |prepared| && prepared[j].id == prepared[k].id && prepared[j].status == Parsed;
    assert j < k || k < j || j == k;
  }

  /** A block ends `indexed` exactly when a chunk row refers to it. */
  lemma IndexedIffChunked(blocks: seq<ParsedBlock>, ids: seq<Uuid>, threshold: real, k: nat)
    requires |ids| == |blocks| && k < |blocks| && DistinctIds(PreparedOf(blocks, ids, threshold))
    ensures TerminalStatus(blocks[k], threshold) == Indexed <==> HasChunk(PreparedOf(blocks, ids, threshold), ids[k])
  {
    var prepared := PreparedOf(blocks, ids, threshold);
    if prepared[k].status == Parsed {
      ParsedBlocksHaveChunks(prepared, k);
    } else if HasChunk(prepared, ids[k]) {
      ChunkedIsParsed(prepared, k);
    }
  }

  ghost predicate DistinctIds(prepared: seq<Prepared>) {
    forall i, j :: 0 <= i < j < |prepared| ==> prepared[i].id != prepared[j].id
  }

  // ---- The transaction -----------------------------------------------------------------------

  ghost function Ids(prepared: seq<Prepared>): set<Uuid> {
    set k | 0 <= k < |prepared| :: prepared[k].id
  }

  ghost predicate NoneParsed(blocks: map<Uuid, BlockRow>) {
    forall id :: id in blocks ==> blocks[id].status != Parsed
  }

  /** What the last update makes of a row. */
  function Settle(row: BlockRow): BlockRow {
    if row.status == Parsed then row.(status := Skipped) else row
  }

  function CountText(prepared: seq<Prepared>): nat {
    if prepared == [] then 0
    else CountText(prepared[..|prepared| - 1]) + (if Trim(prepared[|prepared| - 1].content) != [] then 1 else 0)
  }

  /** The row a prepared block is inserted as; its page look-up must succeed. */
  function RowOf(pb: Prepared, pageIds: map<int, Uuid>): BlockRow
    requires pb.pageNo in pageIds
  {
    BlockRow(pageIds[pb.pageNo], pb.content, pb.status)
  }

  function MarkRow(row: BlockRow, chunked: bool): BlockRow {
    if chunked && row.status == Parsed then row.(status := Indexed) else row
  }

  /** Insert, mark and sweep together leave exactly the terminal status: a block left `parsed`
      always has text, hence chunks, so the sweep never touches it. */
  lemma RowEndsTerminal(b: ParsedBlock, threshold: real, row: BlockRow, chunked: bool)
    requires row.status == InitialStatus(b, threshold)
    requires chunked <==> row.status == Parsed && ChunksOf(b.content) != []
    ensures MarkRow(row, chunked) == row.(status := TerminalStatus(b, threshold))
    ensures MarkRow(row, chunked).status != Parsed
  {
    ChunksOfBlank(b.content, CHUNK_TARGET_CHARS, CHUNK_OVERLAP_CHARS);
  }

  /** Every block row holds its page's id and the terminal status. */
  ghost predicate BlocksEnd(doc: ParsedDoc, pageOf: int -> Uuid, ids: seq<Uuid>, threshold: real,
                            blocks: map<Uuid, BlockRow>)
    requires |ids| == |doc.blocks|
  {
    && (forall k :: 0 <= k < |doc.blocks| ==> ids[k] in blocks)
    && (forall k :: 0 <= k < |doc.blocks| ==>
          var b := doc.blocks[k];
          blocks[ids[k]] == BlockRow(pageOf(EffectivePage(b.page)), b.content, TerminalStatus(b, threshold)))
  }

  /** The rows, among those of the given blocks, that have status `s`. */
  ghost function WithStatus(ids: seq<Uuid>, blocks: map<Uuid, BlockRow>, s: Status): set<Uuid> {
    set id | id in ids && id in blocks && blocks[id].status == s
  }

  lemma {:induction false} CardinalityOfDistinct(ids: seq<Uuid>)
    requires forall i, j :: 0 <= i < j < |ids| ==> ids[i] != ids[j]
    ensures |set id | id in ids| == |ids|
  {
    if ids == [] {
    } else {
      var rest := ids[1..];
      CardinalityOfDistinct(rest);
      assert (set id | id in ids) == {ids[0]} + (set id | id in rest);
    }
  }

  /** The document's rows are indexed, skipped or low-confidence, and these add up to all its blocks. */
  lemma RowsAddUp(doc: ParsedDoc, pageOf: int -> Uuid, ids: seq<Uuid>, threshold: real, blocks: map<Uuid, BlockRow>)
    requires |ids| == |doc.blocks| && BlocksEnd(doc, pageOf, ids, threshold, blocks)
    requires forall i, j :: 0 <= i < j < |ids| ==> ids[i] != ids[j]
    ensures |WithStatus(ids, blocks, Indexed)| + |WithStatus(ids, blocks, Skipped)|
          + |WithStatus(ids, blocks, LowConfidence)| == |doc.blocks|
    ensures WithStatus(ids, blocks, Parsed) == {}
  {
    var a, b := WithStatus(ids, blocks, Indexed), WithStatus(ids, blocks, Skipped);
    var c, all := WithStatus(ids, blocks, LowConfidence), set id | id in ids;
    CardinalityOfDistinct(ids);
    forall id | id in all ensures id in blocks && blocks[id].status in {Indexed, Skipped, LowConfidence} {
      RowSettled(doc, pageOf, ids, threshold, blocks, id);
    }
    ThreeParts(all, a, b, c);
  }

  lemma ThreeParts(all: set<Uuid>, a: set<Uuid>, b: set<Uuid>, c: set<Uuid>)
    requires all == a + b + c && a !! b && a !! c && b !! c
    ensures |a| + |b| + |c| == |all|
  {
    assert (a + b) !! c;
  }

  lemma RowSettled(doc: ParsedDoc, pageOf: int -> Uuid, ids: seq<Uuid>, threshold: real,
                   blocks: map<Uuid, BlockRow>, id: Uuid)
    requires |ids| == |doc.blocks| && BlocksEnd(doc, pageOf, ids, threshold, blocks) && id in ids
    ensures id in blocks && blocks[id].status in {Indexed, Skipped, LowConfidence}
  {
    var k :| 0 <= k < |ids| && ids[k] == id;
  }

  /** Every page has a row, flagged exactly when no block is on it. */
  ghost predicate PagesEnd(doc: ParsedDoc, pageOf: int -> Uuid, pages: map<Uuid, PageRow>) {
    forall p :: p in PageNumbers(doc) ==>
      pageOf(p) in pages && pages[pageOf(p)] == PageRow(p, EmptyPage(doc, p))
  }

  // ---- What the rows say ------------------------------------------------------------------------

  /** A character that is not whitespace occurs. */
  ghost predicate HasInk(s: string) { exists i :: 0 <= i < |s| && !IsSpace(s[i]) }

  lemma {:induction false} InkIff(s: string)
    ensures Trim(s) != [] <==> HasInk(s)
  {
    BlankHasNoInk(s);
    if s == [] {
    } else {
      InkIff(s[1..]);
      BlankHasNoInk(s[1..]);
      if i :| 0 <= i < |s| && !IsSpace(s[i]) {
        assert i > 0 ==> s[1..][i - 1] == s[i];
      }
      if i :| 0 <= i < |s[1..]| && !IsSpace(s[1..][i]) {
        assert s[i + 1] == s[1..][i];
      }
    }
  }

  /** A block is filed under its own page number, or under page 1 if it has none, with its content. It
      is low-confidence below the threshold, a missing confidence counting as 0.9; otherwise it is
      indexed if its content is not blank, and skipped if it is. */
  lemma BlockIsFiled(doc: ParsedDoc, pageOf: int -> Uuid, ids: seq<Uuid>, threshold: real,
                     blocks: map<Uuid, BlockRow>, k: nat)
    requires |ids| == |doc.blocks| && k < |ids| && BlocksEnd(doc, pageOf, ids, threshold, blocks)
    ensures var b, row := doc.blocks[k], blocks[ids[k]];
      && row.page == pageOf(if b.page > 0 then b.page else 1) && row.content == b.content
      && row.status == if (if b.confidence.Some? then b.confidence.value else 0.9) < threshold then LowConfidence
                       else if HasInk(b.content) then Indexed else Skipped
  {
    InkIff(doc.blocks[k].content);
  }

  /** Some block carries page number `p`, page 1 standing in for a missing one. */
  ghost predicate Carries(doc: ParsedDoc, p: int) {
    || (p > 0 && exists b :: b in doc.blocks && b.page == p)
    || (p == 1 && exists b :: b in doc.blocks && b.page <= 0)
  }

  lemma CarriedIff(doc: ParsedDoc, p: int)
    ensures Carries(doc, p) <==> !EmptyPage(doc, p)
    ensures p in PageNumbers(doc) <==> p in doc.pages || Carries(doc, p)
  {
    assert forall b :: b in doc.blocks ==>
      (EffectivePage(b.page) == p <==> (b.page == p > 0) || (p == 1 && b.page <= 0));
  }

  /** There is a row for every page the parser listed or a block carries, with its number, flagged
      exactly when no block carries it. */
  lemma PageIsFlagged(doc: ParsedDoc, pageOf: int -> Uuid, pages: map<Uuid, PageRow>, p: int)
    requires PagesEnd(doc, pageOf, pages) && (p in doc.pages || Carries(doc, p))
    ensures pageOf(p) in pages && pages[pageOf(p)].pageNo == p
    ensures pages[pageOf(p)].needsReview <==> !Carries(doc, p)
  {
    CarriedIff(doc, p);
  }

  /** A document needs no review exactly when no page was cut off, it is not empty, every block has a page
      number, and every listed page has a block. */
  lemma CoveredIff(doc: ParsedDoc)
    ensures !Uncovered(doc) <==>
      && doc.totalPages <= |doc.pages| && (doc.pages != [] || doc.blocks != [])
      && (forall b :: b in doc.blocks ==> b.page > 0)
      && (forall p :: p in doc.pages ==> exists b :: b in doc.blocks && b.page == p)
  {
    forall p | p in doc.pages ensures EmptyPage(doc, p) <==> !Carries(doc, p) {
      CarriedIff(doc, p);
    }
    if forall b :: b in doc.blocks ==> b.page > 0 {
      forall p ensures Carries(doc, p) <==> exists b :: b in doc.blocks && b.page == p {
      }
    }
  }

  /** The blocks among the first `n` that are not blank. */
  ghost function Inky(prepared: seq<Prepared>, n: nat): set<nat>
    requires n <= |prepared|
  {
    set k: nat | k < n && HasInk(prepared[k].content)
  }

  /** The number of blocks reported is that of the blocks that are not blank. */
  lemma {:induction false} TextIsCounted(prepared: seq<Prepared>, n: nat)
    requires n <= |prepared|
    ensures CountText(prepared[..n]) == |Inky(prepared, n)|
  {
    if n == 0 {
    } else {
      TextIsCounted(prepared, n - 1);
      ChunkStep(prepared, n - 1);
      InkIff(prepared[n - 1].content);
      OneMoreInky(prepared, n - 1);
    }
  }

  lemma OneMoreInky(prepared: seq<Prepared>, n: nat)
    requires n < |prepared|
    ensures |Inky(prepared, n + 1)| == |Inky(prepared, n)| + if HasInk(prepared[n].content) then 1 else 0
  {
    assert Inky(prepared, n + 1) == Inky(prepared, n) + if HasInk(prepared[n].content) then {n} else {};
  }

  /** The texts of the chunk rows of a block, in order. */
  ghost function TextsOf(rows: seq<ChunkRow>, id: Uuid): seq<string> {
    if rows == [] then [] else (if rows[0].block == id then [rows[0].text] else []) + TextsOf(rows[1..], id)
  }

  lemma {:induction false} TextsConcat(a: seq<ChunkRow>, b: seq<ChunkRow>, id: Uuid)
    ensures TextsOf(a + b, id) == TextsOf(a, id) + TextsOf(b, id)
  {
    if a == [] {
      assert a + b == b;
    } else {
      assert (a + b)[1..] == a[1..] + b;
      TextsConcat(a[1..], b, id);
      ConcatAssociates(if a[0].block == id then [a[0].text] else [], TextsOf(a[1..], id), TextsOf(b, id));
    }
  }

  lemma {:induction false} TextsOfRows(block: Uuid, texts: seq<string>, id: Uuid)
    ensures TextsOf(RowsFor(block, texts), id) == if id == block then texts else []
  {
    if texts == [] {
    } else {
      assert RowsFor(block, texts)[1..] == RowsFor(block, texts[1..]);
      TextsOfRows(block, texts[1..], id);
      assert [texts[0]] + texts[1..] == texts;
    }
  }

  /** What the last block adds. */
  lemma TextsOfLast(prepared: seq<Prepared>, id: Uuid)
    requires prepared != []
    ensures var n := |prepared| - 1;
      TextsOf(ChunkRows(prepared), id) == TextsOf(ChunkRows(prepared[..n]), id) + TextsOf(BlockRows(prepared[n]), id)
  {
    var n := |prepared| - 1;
    TextsConcat(ChunkRows(prepared[..n]), BlockRows(prepared[n]), id);
  }

  lemma TextsOfOne(pb: Prepared, id: Uuid)
    ensures TextsOf(BlockRows(pb), id) == if pb.id == id && pb.status == Parsed then ChunksOf(pb.content) else []
  {
    TextsOfRows(pb.id, ChunksOf(pb.content), id);
  }

  lemma {:induction false} NoTexts(prepared: seq<Prepared>, id: Uuid)
    requires forall k :: 0 <= k < |prepared| ==> prepared[k].id != id
    ensures TextsOf(ChunkRows(prepared), id) == []
  {
    if prepared == [] {
    } else {
      NoTexts(prepared[..|prepared| - 1], id);
      TextsOfLast(prepared, id);
      TextsOfOne(prepared[|prepared| - 1], id);
    }
  }

  lemma EarlierTexts(prepared: seq<Prepared>, id: Uuid)
    requires prepared != [] && prepared[|prepared| - 1].id != id
    ensures TextsOf(ChunkRows(prepared), id) == TextsOf(ChunkRows(prepared[..|prepared| - 1]), id)
  {
    TextsOfLast(prepared, id);
    TextsOfOne(prepared[|prepared| - 1], id);
  }

  lemma LastTexts(prepared: seq<Prepared>)
    requires DistinctIds(prepared) && prepared != []
    ensures var pb := prepared[|prepared| - 1];
      TextsOf(ChunkRows(prepared), pb.id) == TextsOf(BlockRows(pb), pb.id)
  {
    var n := |prepared| - 1;
    TextsOfLast(prepared, prepared[n].id);
    NoTexts(prepared[..n], prepared[n].id);
  }

  lemma {:induction false} TextsOfBlock(prepared: seq<Prepared>, k: nat)
    requires DistinctIds(prepared) && k < |prepared|
    ensures TextsOf(ChunkRows(prepared), prepared[k].id) == TextsOf(BlockRows(prepared[k]), prepared[k].id)
  {
    if k < |prepared| - 1 {
      TextsOfBlock(prepared[..|prepared| - 1], k);
      EarlierTexts(prepared, prepared[k].id);
    } else {
      LastTexts(prepared);
    }
  }

  /** An indexed block has exactly the chunks of its content for target 800 and overlap 120, in order;
      any other block has none. */
  lemma ChunkRowsOfBlock(blocks: seq<ParsedBlock>, ids: seq<Uuid>, threshold: real, k: nat)
    requires |ids| == |blocks| && k < |ids| && DistinctIds(PreparedOf(blocks, ids, threshold))
    ensures TextsOf(ChunkRows(PreparedOf(blocks, ids, threshold)), ids[k])
         == if TerminalStatus(blocks[k], threshold) == Indexed then Chunks(blocks[k].content, 800, 120) else []
  {
    TextsOfBlock(PreparedOf(blocks, ids, threshold), k);
    TextsOfOne(PreparedOf(blocks, ids, threshold)[k], ids[k]);
    ChunksOfBlank(blocks[k].content, CHUNK_TARGET_CHARS, CHUNK_OVERLAP_CHARS);
  }

  /** No page row appears or changes but those of the document's pages. */
  ghost predicate OthersKept(doc: ParsedDoc, pageOf: int -> Uuid,
                             before: map<Uuid, PageRow>, after: map<Uuid, PageRow>) {
    forall id | (forall p :: p in PageNumbers(doc) ==> pageOf(p) != id) ::
      (id in after <==> id in before) && (id in after ==> after[id] == before[id])
  }

  /** Random ids do not repeat. */
  ghost predicate DrawsApart(doc: ParsedDoc, pageOf: int -> Uuid) {
    forall p, q :: p in PageNumbers(doc) && q in PageNumbers(doc) && pageOf(p) == pageOf(q) ==> p == q
  }

  predicate YieldsChunks(pb: Prepared) { pb.status == Parsed && ChunksOf(pb.content) != [] }

  /** One of the first `n` blocks has this id, is still `parsed` and yields chunks. */
  ghost predicate IsChunked(prepared: seq<Prepared>, n: nat, id: Uuid)
    requires n <= |prepared|
  {
    exists i :: 0 <= i < n && prepared[i].id == id && YieldsChunks(prepared[i])
  }

  lemma ChunkStep(prepared: seq<Prepared>, k: nat)
    requires k < |prepared|
    ensures ChunkRows(prepared[..k + 1]) == ChunkRows(prepared[..k])
      + BlockRows(prepared[k])
    ensures CountText(prepared[..k + 1])
      == CountText(prepared[..k]) + (if Trim(prepared[k].content) != [] then 1 else 0)
  {
    assert prepared[..k + 1][..k] == prepared[..k];
  }

  /** `chunked` names exactly the first `n` blocks that got chunks. */
  ghost predicate AreChunked(prepared: seq<Prepared>, n: nat, chunked: seq<Uuid>)
    requires n <= |prepared|
  {
    forall id :: id in chunked <==> IsChunked(prepared, n, id)
  }

  lemma AreChunkedStep(prepared: seq<Prepared>, k: nat, chunked: seq<Uuid>)
    requires k < |prepared| && AreChunked(prepared, k, chunked)
    ensures AreChunked(prepared, k + 1, chunked + (if YieldsChunks(prepared[k]) then [prepared[k].id] else []))
  {
    IsChunkedStep(prepared, k);
  }

  lemma IsChunkedStep(prepared: seq<Prepared>, k: nat)
    requires k < |prepared|
    ensures forall id :: IsChunked(prepared, k + 1, id) <==>
      (IsChunked(prepared, k, id) || (id == prepared[k].id && YieldsChunks(prepared[k])))
  {
    forall id ensures IsChunked(prepared, k + 1, id) <==>
      (IsChunked(prepared, k, id) || (id == prepared[k].id && YieldsChunks(prepared[k])))
    {
      IsChunkedAt(prepared, k, id);
    }
  }

  lemma IsChunkedAt(prepared: seq<Prepared>, k: nat, id: Uuid)
    requires k < |prepared|
    ensures IsChunked(prepared, k + 1, id) <==>
      (IsChunked(prepared, k, id) || (id == prepared[k].id && YieldsChunks(prepared[k])))
  {
    if i :| 0 <= i < k && prepared[i].id == id && YieldsChunks(prepared[i]) {
      assert i < k + 1;
    }
    if prepared[k].id == id && YieldsChunks(prepared[k]) {
      assert k < k + 1;
    }
  }

  /** Rows outside `ids` neither appear nor change. */
  ghost predicate KeptOutside(before: map<Uuid, PageRow>, after: map<Uuid, PageRow>, ids: set<Uuid>) {
    forall id :: id !in ids ==> (id in after <==> id in before) && (id in after ==> after[id] == before[id])
  }

  /** The listed pages have their rows. */
  ghost predicate PagesInserted(pages: map<Uuid, PageRow>, pageNos: seq<int>,
                                pageIds: map<int, Uuid>, perPage: map<int, nat>) {
    forall p :: p in pageNos ==>
      p in pageIds && pageIds[p] in pages && pages[pageIds[p]] == PageRow(p, p !in perPage || perPage[p] == 0)
  }

  lemma PageInserted(pages: map<Uuid, PageRow>, pageNos: seq<int>, p: int,
                     pageIds: map<int, Uuid>, perPage: map<int, nat>)
    requires PagesInserted(pages, pageNos, pageIds, perPage) && p in pageIds
    requires forall p, q :: p in pageIds && q in pageIds && pageIds[p] == pageIds[q] ==> p == q
    ensures var more := pages[pageIds[p] := PageRow(p, !(p in perPage && perPage[p] > 0))];
      PagesInserted(more, pageNos + [p], pageIds, perPage) && KeptOutside(pages, more, pageIds.Values)
  {
    assert p in pageIds.Keys && pageIds[p] in pageIds.Values;
  }

  /** The rows of one document. */
  class Tables {
    var pages: map<Uuid, PageRow>
    var blocks: map<Uuid, BlockRow>
    var chunks: seq<ChunkRow>

    method InsertPages(pageNos: seq<int>, pageIds: map<int, Uuid>, perPage: map<int, nat>)
      requires Ascending(pageNos) && pageIds.Keys == (set p | p in pageNos)
      requires forall p, q :: p in pageIds && q in pageIds && pageIds[p] == pageIds[q] ==> p == q
      modifies this`pages
      ensures forall p :: p in pageIds ==> pageIds[p] in pages
      ensures forall p :: p in pageIds ==> pages[pageIds[p]] == PageRow(p, p !in perPage || perPage[p] == 0)
      ensures KeptOutside(old(pages), pages, pageIds.Values)
    {
      for k := 0 to |pageNos|
        invariant PagesInserted(pages, pageNos[..k], pageIds, perPage) && KeptOutside(old(pages), pages, pageIds.Values)
      {
        var p := pageNos[k];
        assert p in pageIds;
        assert pageNos[..k + 1] == pageNos[..k] + [p];
        var hasBlocks := p in perPage && perPage[p] > 0;
        PageInserted(pages, pageNos[..k], p, pageIds, perPage);
        pages := pages[pageIds[p] := PageRow(p, !hasBlocks)];
      }
      assert pageNos[..|pageNos|] == pageNos;
    }

    method InsertBlocks(prepared: seq<Prepared>, pageIds: map<int, Uuid>)
      requires DistinctIds(prepared) && Ids(prepared) !! blocks.Keys
      requires forall k :: 0 <= k < |prepared| ==> prepared[k].pageNo in pageIds
      modifies this`blocks
      ensures blocks.Keys == old(blocks).Keys + Ids(prepared)
      ensures forall id :: id in old(blocks) ==> blocks[id] == old(blocks)[id]
      ensures forall k :: 0 <= k < |prepared| ==>
        blocks[prepared[k].id] == RowOf(prepared[k], pageIds)
    {
      for k := 0 to |prepared|
        invariant forall id :: id in blocks <==> id in old(blocks) || exists i :: 0 <= i < k && prepared[i].id == id
        invariant forall id :: id in old(blocks) ==> blocks[id] == old(blocks)[id]
        invariant forall i :: 0 <= i < k ==> blocks[prepared[i].id] == RowOf(prepared[i], pageIds)
      {
        var pb := prepared[k];
        assert pb.id in Ids(prepared);
        blocks := blocks[pb.id := RowOf(pb, pageIds)];
      }
    }

    /** Chunk every block still `parsed` and remember which ones got a chunk. */
    method InsertChunks(prepared: seq<Prepared>) returns (textBlocks: nat, chunked: seq<Uuid>)
      requires DistinctIds(prepared)
      modifies this`chunks
      ensures chunks == old(chunks) + ChunkRows(prepared) && textBlocks == CountText(prepared)
      ensures AreChunked(prepared, |prepared|, chunked)
    {
      textBlocks, chunked := 0, [];
      for k := 0 to |prepared|
        invariant chunks == old(chunks) + ChunkRows(prepared[..k]) && textBlocks == CountText(prepared[..k])
        invariant AreChunked(prepared, k, chunked)
      {
        var pb := prepared[k];
        ChunkStep(prepared, k);
        AreChunkedStep(prepared, k, chunked);
        ConcatAssociates(old(chunks), ChunkRows(prepared[..k]), BlockRows(pb));
        if Trim(pb.content) != [] {
          textBlocks := textBlocks + 1;
        }
        var some := ChunkBlock(pb);
        if some {
          chunked := chunked + [pb.id];
        } else {
          assert chunked + [] == chunked;
        }
      }
      assert prepared[..|prepared|] == prepared;
    }

    /** The loop body for one block: nothing for a block that is not `parsed`. */
    method ChunkBlock(pb: Prepared) returns (some: bool)
      modifies this`chunks
      ensures chunks == old(chunks) + BlockRows(pb)
      ensures some <==> YieldsChunks(pb)
    {
      some := false;
      if pb.status == Parsed {
        var texts := ChunkText(pb.content, CHUNK_TARGET_CHARS, CHUNK_OVERLAP_CHARS);
        if texts != [] {
          InsertRows(pb.id, texts);
          some := true;
        }
      }
    }

    method InsertRows(id: Uuid, texts: seq<string>)
      modifies this`chunks
      ensures chunks == old(chunks) + RowsFor(id, texts)
    {
      for k := 0 to |texts|
        invariant chunks == old(chunks) + RowsFor(id, texts[..k])
      {
        assert RowsFor(id, texts[..k + 1]) == RowsFor(id, texts[..k]) + [ChunkRow(id, texts[k])];
        chunks := chunks + [ChunkRow(id, texts[k])];
      }
      assert texts[..|texts|] == texts;
    }

    /** `UPDATE ... SET status = 'indexed' WHERE id = $1 AND status = 'parsed'`, per chunked block. */
    method MarkIndexed(chunked: seq<Uuid>)
      modifies this`blocks
      ensures blocks.Keys == old(blocks).Keys
      ensures forall id :: id in blocks ==> blocks[id] == MarkRow(old(blocks)[id], id in chunked)
    {
      for k := 0 to |chunked|
        invariant blocks.Keys == old(blocks).Keys
        invariant forall id :: id in blocks ==> blocks[id] == MarkRow(old(blocks)[id], id in chunked[..k])
      {
        var id := chunked[k];
        assert chunked[..k + 1] == chunked[..k] + [id];
        if id in blocks && blocks[id].status == Parsed {
          blocks := blocks[id := blocks[id].(status := Indexed)];
        }
      }
      assert chunked[..|chunked|] == chunked;
    }

    /** The closing update: whatever is still `parsed` becomes `skipped`, so it changes nothing exactly
        when no row is `parsed`. */
    method Sweep() returns (swept: set<Uuid>)
      modifies this`blocks
      ensures NoneParsed(blocks) && (blocks == old(blocks) <==> NoneParsed(old(blocks)))
      ensures blocks.Keys == old(blocks).Keys && (swept == {} <==> blocks == old(blocks))
      ensures forall id :: id in blocks ==> blocks[id] == Settle(old(blocks)[id])
    {
      swept := set id | id in blocks && blocks[id].status == Parsed;
      ghost var before := blocks;
      blocks := map id | id in blocks :: Settle(blocks[id]);
      assert NoneParsed(before) ==> swept == {} && blocks == before;
      if id :| id in before && before[id].status == Parsed {
        assert id in swept && blocks[id] != before[id];
      }
    }

    /** Every statement of the transaction that touches blocks and chunks. */
    method PersistBlocks(doc: ParsedDoc, prepared: seq<Prepared>, pageIds: map<int, Uuid>,
                         ghost ids: seq<Uuid>, ghost threshold: real)
      returns (textBlocks: nat, swept: set<Uuid>)
      requires |ids| == |doc.blocks| && prepared == PreparedOf(doc.blocks, ids, threshold)
      requires DistinctIds(prepared) && Ids(prepared) !! blocks.Keys
      requires forall k :: 0 <= k < |prepared| ==> prepared[k].pageNo in pageIds
      modifies this`blocks, this`chunks
      ensures blocks.Keys == old(blocks).Keys + Ids(prepared)
      ensures forall k :: 0 <= k < |prepared| ==>
        blocks[prepared[k].id] == RowOf(prepared[k], pageIds).(status := TerminalStatus(doc.blocks[k], threshold))
      ensures forall id :: id in old(blocks) ==> blocks[id] == Settle(old(blocks)[id])
      ensures NoneParsed(blocks) && (NoneParsed(old(blocks)) ==> swept == {})
      ensures chunks == old(chunks) + ChunkRows(prepared) && textBlocks == CountText(prepared)
    {
      var chunked;
      InsertBlocks(prepared, pageIds);
      ghost var inserted := blocks;
      textBlocks, chunked := InsertChunks(prepared);
      MarkIndexed(chunked);
      ghost var marked := blocks;
      forall k | 0 <= k < |prepared|
        ensures prepared[k].id in marked && marked[prepared[k].id].status != Parsed
        ensures marked[prepared[k].id]
             == RowOf(prepared[k], pageIds).(status := TerminalStatus(doc.blocks[k], threshold))
      {
        var id := prepared[k].id;
        assert id in Ids(prepared);
        RowEndsTerminal(doc.blocks[k], threshold, inserted[id], id in chunked);
      }
      swept := Sweep();
    }

    method PersistPages(doc: ParsedDoc, drawPage: int -> Uuid)
      returns (pageIds: map<int, Uuid>, review: bool)
      requires DrawsApart(doc, drawPage)
      modifies this`pages
      ensures pageIds.Keys == PageNumbers(doc) && forall p :: p in pageIds ==> pageIds[p] == drawPage(p)
      ensures OthersKept(doc, drawPage, old(pages), pages)
      ensures PagesEnd(doc, drawPage, pages) && (review <==> Uncovered(doc))
    {
      var perPage := CountBlocks(doc.blocks);
      var pageNos := PageList(doc);
      pageIds := map p | p in pageNos :: drawPage(p);
      review := NeedsReview(doc, pageNos, perPage);
      CountedPages(doc, perPage);
      InsertPages(pageNos, pageIds, perPage);
    }

    /** The whole of `persist`. `drawPage` and `blockIds` are the random ids it draws. */
    method Persist(doc: ParsedDoc, drawPage: int -> Uuid, blockIds: seq<Uuid>, threshold: real)
      returns (outcome: Outcome, swept: set<Uuid>)
      requires |blockIds| == |doc.blocks| && DrawsApart(doc, drawPage)
      requires DistinctIds(PreparedOf(doc.blocks, blockIds, threshold))
      requires Ids(PreparedOf(doc.blocks, blockIds, threshold)) !! blocks.Keys
      modifies this
      ensures blocks.Keys == old(blocks).Keys + Ids(PreparedOf(doc.blocks, blockIds, threshold))
      ensures BlocksEnd(doc, drawPage, blockIds, threshold, blocks) && PagesEnd(doc, drawPage, pages)
      ensures OthersKept(doc, drawPage, old(pages), pages)
      ensures forall id :: id in old(blocks) ==> blocks[id] == Settle(old(blocks)[id])
      ensures NoneParsed(blocks) && (NoneParsed(old(blocks)) ==> swept == {})
      ensures chunks == old(chunks) + ChunkRows(PreparedOf(doc.blocks, blockIds, threshold))
      ensures outcome == Outcome(|PageNumbers(doc)|, CountText(PreparedOf(doc.blocks, blockIds, threshold)),
                                 |ChunkRows(PreparedOf(doc.blocks, blockIds, threshold))|, Uncovered(doc))
    {
      var prepared := PrepareBlocks(doc.blocks, blockIds, threshold);
      var pageIds, review := PersistPages(doc, drawPage);
      forall k | 0 <= k < |prepared| ensures prepared[k].pageNo in pageIds {
        assert doc.blocks[k] in doc.blocks;
      }
      var before := |chunks|;
      var textBlocks;
      textBlocks, swept := PersistBlocks(doc, prepared, pageIds, blockIds, threshold);
      forall k | 0 <= k < |doc.blocks| ensures blockIds[k] in blocks {
        assert prepared[k].id in Ids(prepared);
      }
      outcome := Outcome(|pageIds|, textBlocks, |chunks| - before, review);
    }
  }
}
