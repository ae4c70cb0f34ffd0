/**
 * `normalizePages`: flattening an OCR payload
 * `{pages: [{blocks: [{text}], fullText}], text}` into the ordered list of
 * non-blank text entries `{p, b, text}` that the recipe prompt is built from.
 */
module OcrPages {
  import opened JsValues
  import opened JsStrings
  import opened Seqs

  /** One OCR text entry: page index, block index within the page, trimmed text. */
  datatype OcrEntry = OcrEntry(p: nat, b: nat, text: string)

  /** `data?.pages` when it is an array, otherwise no pages. */
  function PagesOf(data: JsValue): seq<JsValue> {
    ArrayOrEmpty(Get(data, "pages"))
  }

  /** `page.blocks` when it is an array, otherwise no blocks. */
  function BlocksOf(page: JsValue): seq<JsValue> {
    ArrayOrEmpty(Get(page, "blocks"))
  }

  /** `asString(block.text).trim()`. */
  function BlockText(block: JsValue): string {
    Trim(AsString(Get(block, "text")))
  }

  /** `asString(page.fullText).trim()`. */
  function FullTextOf(page: JsValue): string {
    Trim(AsString(Get(page, "fullText")))
  }

  /** `asString(data?.text).trim()`. */
  function TopTextOf(data: JsValue): string {
    Trim(AsString(Get(data, "text")))
  }

  /** What block `b` of page `p` contributes: its entry when its text is not blank. */
  function BlockEntry(p: nat, b: nat, block: JsValue): seq<OcrEntry> {
    var txt := BlockText(block);
    if txt != "" then [OcrEntry(p, b, txt)] else []
  }

  /** The entries of page `p` from the blocks it has, one per non-blank block, tagged with the block's index. */
  function BlockEntries(p: nat, blocks: seq<JsValue>): seq<OcrEntry> {
    Flatten(MapIndexed(blocks, (b, block) => BlockEntry(p, b, block)))
  }

  /** The entries page `p` contributes: its blocks when it has any, else its non-blank `fullText` as block 0. */
  function PageEntries(p: nat, page: JsValue): seq<OcrEntry> {
    var blocks := BlocksOf(page);
    if |blocks| > 0 then BlockEntries(p, blocks)
    else if FullTextOf(page) != "" then [OcrEntry(p, 0, FullTextOf(page))]
    else []
  }

  /** The entries of all pages, page after page. */
  function PagesEntries(pages: seq<JsValue>): seq<OcrEntry> {
    Flatten(MapIndexed(pages, PageEntries))
  }

  /**
   * `normalizePages(data)`: the entries of all pages, or, when the pages yield
   * none, the trimmed top-level `text` as entry (0, 0) if it is not blank.
   * Every entry has non-empty trimmed text and the list is strictly
   * increasing in reading order.
   */
  function NormalizePages(data: JsValue): (r: seq<OcrEntry>)
    ensures CleanTexts(r)
    ensures StrictlyOrdered(r)
  {
    var fromPages := PagesEntries(PagesOf(data));
    var topText := TopTextOf(data);
    PagesEntriesSound(PagesOf(data));
    if |fromPages| == 0 && topText != "" then [OcrEntry(0, 0, topText)]
    else fromPages
  }

  // ---------------------------------------------------------------------------
  // Properties of the result

  /** Reading order: by page, then by block. */
  predicate Before(x: OcrEntry, y: OcrEntry) {
    x.p < y.p || (x.p == y.p && x.b < y.b)
  }

  /** Strictly increasing in reading order, hence no (page, block) position twice. */
  predicate StrictlyOrdered(es: seq<OcrEntry>) {
    forall i, j :: 0 <= i < j < |es| ==> Before(es[i], es[j])
  }

  /** Every entry carries text worth sending: non-empty and already trimmed. */
  predicate CleanTexts(es: seq<OcrEntry>) {
    forall i :: 0 <= i < |es| ==> es[i].text != "" && IsTrimmed(es[i].text)
  }

  /** Every entry belongs to page `p`. */
  predicate OnPage(es: seq<OcrEntry>, p: nat) {
    forall i :: 0 <= i < |es| ==> es[i].p == p
  }

  /** Block indices strictly increase: block order is kept and no block appears twice. */
  predicate IncreasingBlocks(es: seq<OcrEntry>) {
    forall i, j :: 0 <= i < j < |es| ==> es[i].b < es[j].b
  }

  /** `e` is the entry of a non-blank block of page `p`: that block's index and its trimmed text. */
  predicate EntryOfBlock(e: OcrEntry, p: nat, blocks: seq<JsValue>) {
    e.p == p && e.b < |blocks| && e.text == BlockText(blocks[e.b]) && e.text != ""
  }

  predicate FromBlocks(es: seq<OcrEntry>, p: nat, blocks: seq<JsValue>) {
    forall i :: 0 <= i < |es| ==> EntryOfBlock(es[i], p, blocks)
  }

  /** A page that contributes nothing: all its blocks are blank, or it has none and a blank `fullText`. */
  predicate PageIsBlank(page: JsValue) {
    var blocks := BlocksOf(page);
    if |blocks| > 0 then forall b :: 0 <= b < |blocks| ==> BlockText(blocks[b]) == ""
    else FullTextOf(page) == ""
  }

  // ---------------------------------------------------------------------------
  // Blocks

  /** Each block entry is a non-blank block of the page with its own index, and block order is kept. */
  lemma {:induction false} BlockEntriesSound(p: nat, blocks: seq<JsValue>)
    ensures FromBlocks(BlockEntries(p, blocks), p, blocks)
    ensures IncreasingBlocks(BlockEntries(p, blocks))
    decreases |blocks|
  {
    if |blocks| > 0 {
      var b := |blocks| - 1;
      var init := BlockEntries(p, blocks[..b]);
      BlockEntriesSound(p, blocks[..b]);
      FromBlocksPrefix(init, p, blocks);
      AppendBlockEntry(p, blocks, init, BlockEntry(p, b, blocks[b]));
      BlockEntriesSnoc(p, blocks, b);
      assert blocks[..b + 1] == blocks;
    }
  }

  /** Entries drawn from all but the last block are entries of the whole list, before its last index. */
  lemma FromBlocksPrefix(init: seq<OcrEntry>, p: nat, blocks: seq<JsValue>)
    requires |blocks| > 0
    requires FromBlocks(init, p, blocks[..|blocks| - 1])
    ensures forall i :: 0 <= i < |init| ==> EntryOfBlock(init[i], p, blocks) && init[i].b < |blocks| - 1
  {
    var b := |blocks| - 1;
    forall i | 0 <= i < |init|
      ensures EntryOfBlock(init[i], p, blocks) && init[i].b < b
    {
      assert EntryOfBlock(init[i], p, blocks[..b]);
      assert blocks[..b][init[i].b] == blocks[init[i].b];
    }
  }

  lemma AppendBlockEntry(p: nat, blocks: seq<JsValue>, init: seq<OcrEntry>, last: seq<OcrEntry>)
    requires |blocks| > 0
    requires forall i :: 0 <= i < |init| ==> EntryOfBlock(init[i], p, blocks) && init[i].b < |blocks| - 1
    requires IncreasingBlocks(init)
    requires last == [] || last == [OcrEntry(p, |blocks| - 1, BlockText(blocks[|blocks| - 1]))]
    requires last == [] || BlockText(blocks[|blocks| - 1]) != ""
    ensures FromBlocks(init + last, p, blocks)
    ensures IncreasingBlocks(init + last)
  {
    var r := init + last;
    forall i | 0 <= i < |r|
      ensures EntryOfBlock(r[i], p, blocks)
    {
      if i < |init| { assert r[i] == init[i]; }
    }
    forall i, j | 0 <= i < j < |r|
      ensures r[i].b < r[j].b
    {
      assert r[i] == init[i];
      if j < |init| {
        assert r[j] == init[j];
      } else {
        assert r[j].b == |blocks| - 1;
      }
    }
  }

  /** Every non-blank block has its entry: nothing is lost. */
  lemma {:induction false} BlockEntriesComplete(p: nat, blocks: seq<JsValue>, b: nat)
    requires b < |blocks| && BlockText(blocks[b]) != ""
    ensures exists k :: 0 <= k < |BlockEntries(p, blocks)| && BlockEntries(p, blocks)[k].b == b
    decreases |blocks|
  {
    var last := |blocks| - 1;
    var r := BlockEntries(p, blocks);
    var init := BlockEntries(p, blocks[..last]);
    BlockEntriesSnoc(p, blocks, last);
    assert blocks[..last + 1] == blocks;
    if b == last {
      assert r[|r| - 1].b == b;
    } else {
      assert blocks[..last][b] == blocks[b];
      BlockEntriesComplete(p, blocks[..last], b);
      var k :| 0 <= k < |init| && init[k].b == b;
      assert r[k] == init[k];
    }
  }

  /** A page's blocks yield nothing exactly when every block is blank. */
  lemma BlockEntriesEmpty(p: nat, blocks: seq<JsValue>)
    ensures BlockEntries(p, blocks) == [] <==> forall b :: 0 <= b < |blocks| ==> BlockText(blocks[b]) == ""
  {
    var xss := MapIndexed(blocks, (b, block) => BlockEntry(p, b, block));
    FlattenEmpty(xss);
    assert forall b :: 0 <= b < |blocks| ==> (xss[b] == [] <==> BlockText(blocks[b]) == "");
  }

  /** Entries drawn from blocks are on their page and carry trimmed, non-empty text. */
  lemma FromBlocksClean(es: seq<OcrEntry>, p: nat, blocks: seq<JsValue>)
    requires FromBlocks(es, p, blocks)
    ensures OnPage(es, p) && CleanTexts(es)
  {
    forall i | 0 <= i < |es|
      ensures es[i].p == p && es[i].text != "" && IsTrimmed(es[i].text)
    {
      assert EntryOfBlock(es[i], p, blocks);
    }
  }

  // ---------------------------------------------------------------------------
  // Pages

  /**
   * A page with a non-empty `blocks` array contributes exactly its non-blank
   * blocks, each with its own index, in block order, and its `fullText` plays
   * no part: any page with the same blocks contributes the same entries.
   */
  lemma PageWithBlocks(p: nat, page: JsValue, other: JsValue)
    requires |BlocksOf(page)| > 0
    requires BlocksOf(other) == BlocksOf(page)
    ensures var r, blocks := PageEntries(p, page), BlocksOf(page);
      && FromBlocks(r, p, blocks)
      && IncreasingBlocks(r)
      && (forall b :: 0 <= b < |blocks| && BlockText(blocks[b]) != "" ==>
            exists k :: 0 <= k < |r| && r[k].b == b)
      && PageEntries(p, other) == r
  {
    var blocks := BlocksOf(page);
    BlockEntriesSound(p, blocks);
    forall b | 0 <= b < |blocks| && BlockText(blocks[b]) != ""
      ensures exists k :: 0 <= k < |BlockEntries(p, blocks)| && BlockEntries(p, blocks)[k].b == b
    {
      BlockEntriesComplete(p, blocks, b);
    }
  }

  /**
   * A page without blocks contributes at most one entry: its trimmed
   * `fullText` as block 0, present exactly when that text is not blank.
   */
  lemma PageWithoutBlocks(p: nat, page: JsValue)
    requires |BlocksOf(page)| == 0
    ensures |PageEntries(p, page)| <= 1
    ensures PageEntries(p, page) == [] <==> FullTextOf(page) == ""
    ensures PageEntries(p, page) != [] ==> PageEntries(p, page)[0] == OcrEntry(p, 0, FullTextOf(page))
  {
  }

  /** Whatever a page contributes is on that page, in block order, with clean text. */
  lemma PageEntriesSound(p: nat, page: JsValue)
    ensures OnPage(PageEntries(p, page), p)
    ensures IncreasingBlocks(PageEntries(p, page))
    ensures CleanTexts(PageEntries(p, page))
    ensures PageEntries(p, page) == [] <==> PageIsBlank(page)
  {
    var blocks := BlocksOf(page);
    if |blocks| > 0 {
      BlockEntriesSound(p, blocks);
      FromBlocksClean(BlockEntries(p, blocks), p, blocks);
      BlockEntriesEmpty(p, blocks);
    }
  }

  /** All pages together: page indices in range, reading order strictly increasing, clean text. */
  lemma {:induction false} PagesEntriesSound(pages: seq<JsValue>)
    ensures forall i :: 0 <= i < |PagesEntries(pages)| ==> PagesEntries(pages)[i].p < |pages|
    ensures StrictlyOrdered(PagesEntries(pages))
    ensures CleanTexts(PagesEntries(pages))
    decreases |pages|
  {
    if |pages| > 0 {
      var p := |pages| - 1;
      PagesEntriesSound(pages[..p]);
      PageEntriesSound(p, pages[p]);
      AppendPage(p, PagesEntries(pages[..p]), PageEntries(p, pages[p]));
      PagesEntriesSnoc(pages, p);
      assert pages[..p + 1] == pages;
    }
  }

  lemma AppendPage(p: nat, init: seq<OcrEntry>, last: seq<OcrEntry>)
    requires forall i :: 0 <= i < |init| ==> init[i].p < p
    requires StrictlyOrdered(init) && CleanTexts(init)
    requires OnPage(last, p)
    requires IncreasingBlocks(last) && CleanTexts(last)
    ensures forall i :: 0 <= i < |init + last| ==> (init + last)[i].p < p + 1
    ensures StrictlyOrdered(init + last)
    ensures CleanTexts(init + last)
  {
    var r := init + last;
    forall i, j | 0 <= i < j < |r|
      ensures Before(r[i], r[j])
    {
      if j < |init| {
        assert r[i] == init[i] && r[j] == init[j];
      } else if i < |init| {
        assert r[i] == init[i] && r[j] == last[j - |init|];
      } else {
        assert r[i] == last[i - |init|] && r[j] == last[j - |init|];
      }
    }
    forall i | 0 <= i < |r|
      ensures r[i].p < p + 1 && r[i].text != "" && IsTrimmed(r[i].text)
    {
      if i < |init| { assert r[i] == init[i]; } else { assert r[i] == last[i - |init|]; }
    }
  }

  /** The pages yield nothing exactly when no page contributes anything. */
  lemma PagesEntriesEmpty(pages: seq<JsValue>)
    ensures PagesEntries(pages) == [] <==> forall p :: 0 <= p < |pages| ==> PageEntries(p, pages[p]) == []
  {
    FlattenEmpty(MapIndexed(pages, PageEntries));
  }

  /** The pages yield nothing exactly when every page is blank. */
  lemma AllPagesBlank(pages: seq<JsValue>)
    ensures PagesEntries(pages) == [] <==> forall p :: 0 <= p < |pages| ==> PageIsBlank(pages[p])
  {
    PagesEntriesEmpty(pages);
    forall p | 0 <= p < |pages|
      ensures PageEntries(p, pages[p]) == [] <==> PageIsBlank(pages[p])
    {
      PageEntriesSound(p, pages[p]);
    }
  }

  /**
   * The top-level `text` is only a fallback: it is used exactly when every
   * page is blank, and then the result is that trimmed text as entry (0, 0),
   * or nothing when it is blank too. Otherwise the result is the pages'
   * entries and `text` is ignored.
   */
  lemma TopTextOnlyAsFallback(data: JsValue)
    ensures var pages := PagesOf(data);
      (forall p :: 0 <= p < |pages| ==> PageIsBlank(pages[p])) ==>
        NormalizePages(data) == (if TopTextOf(data) == "" then [] else [OcrEntry(0, 0, TopTextOf(data))])
    ensures var pages := PagesOf(data);
      !(forall p :: 0 <= p < |pages| ==> PageIsBlank(pages[p])) ==>
        NormalizePages(data) == PagesEntries(pages) && NormalizePages(data) != []
  {
    AllPagesBlank(PagesOf(data));
  }

  /** Nothing to send: `normalizePages` is empty exactly when every page and the top-level `text` are blank. */
  lemma NormalizePagesEmpty(data: JsValue)
    ensures NormalizePages(data) == [] <==>
      (forall p :: 0 <= p < |PagesOf(data)| ==> PageIsBlank(PagesOf(data)[p])) && TopTextOf(data) == ""
  {
    AllPagesBlank(PagesOf(data));
  }

  /**
   * Only `pages` and the top-level `text` of the payload are read: two
   * payloads that agree on those give the same entries, whatever else they
   * carry (a top-level `blocks` array included).
   */
  lemma NormalizePagesReadsPagesAndText(d1: JsValue, d2: JsValue)
    requires Get(d1, "pages") == Get(d2, "pages") && Get(d1, "text") == Get(d2, "text")
    ensures NormalizePages(d1) == NormalizePages(d2)
  {
  }

  /**
   * The payload shape `{blocks: [{text: ...}]}` that the handler's rejection
   * message suggests produces no entry: a top-level `blocks` array is never read.
   */
  lemma TopLevelBlocksIgnored(t: string)
    ensures NormalizePages(Obj(map["blocks" := Arr([Obj(map["text" := Str(t)])])])) == []
  {
    var d := Obj(map["blocks" := Arr([Obj(map["text" := Str(t)])])]);
    assert Get(d, "pages") == Undefined && Get(d, "text") == Undefined;
    assert PagesOf(d) == [];
    PagesEntriesEmpty([]);
    assert TopTextOf(d) == "";
  }

  // ---------------------------------------------------------------------------
  // The loops as the source runs them

  /** Growing the block list by one adds at most that block's entry at the end. */
  lemma BlockEntriesSnoc(p: nat, blocks: seq<JsValue>, b: nat)
    requires b < |blocks|
    ensures BlockEntries(p, blocks[..b + 1]) == BlockEntries(p, blocks[..b]) + BlockEntry(p, b, blocks[b])
  {
    var f := (b, block) => BlockEntry(p, b, block);
    var xss := MapIndexed(blocks[..b + 1], f);
    MapIndexedSnoc(blocks, f, b);
    assert xss[..b] == MapIndexed(blocks[..b], f);
  }

  /** Growing the page list by one appends that page's entries. */
  lemma PagesEntriesSnoc(pages: seq<JsValue>, p: nat)
    requires p < |pages|
    ensures PagesEntries(pages[..p + 1]) == PagesEntries(pages[..p]) + PageEntries(p, pages[p])
  {
    var xss := MapIndexed(pages[..p + 1], PageEntries);
    MapIndexedSnoc(pages, PageEntries, p);
    assert xss[..p] == MapIndexed(pages[..p], PageEntries);
  }

  /** `normalizePages` as it runs: the page loop, then the top-level fallback. */
  method NormalizePagesLoop(data: JsValue) returns (out: seq<OcrEntry>)
    ensures out == NormalizePages(data)
  {
    out := PushPages(PagesOf(data));
    var topText := TopTextOf(data);
    if |out| == 0 && topText != "" {
      out := out + [OcrEntry(0, 0, topText)];
    }
  }

  /** The outer loop over pages, starting from an empty output. */
  method PushPages(pages: seq<JsValue>) returns (out: seq<OcrEntry>)
    ensures out == PagesEntries(pages)
  {
    out := [];
    var p := 0;
    while p < |pages|
      invariant 0 <= p <= |pages|
      invariant out == PagesEntries(pages[..p])
    {
      out := PushPage(out, p, pages[p]);
      PagesEntriesSnoc(pages, p);
      p := p + 1;
    }
    assert pages[..p] == pages;
  }

  /** One turn of the outer loop: push page `p`'s entries onto `out`. */
  method PushPage(out: seq<OcrEntry>, p: nat, page: JsValue) returns (out': seq<OcrEntry>)
    ensures out' == out + PageEntries(p, page)
  {
    var blocks := BlocksOf(page);
    var fullText := FullTextOf(page);
    if |blocks| > 0 {
      out' := PushBlocks(out, p, blocks);
    } else if fullText != "" {
      out' := out + [OcrEntry(p, 0, fullText)];
    } else {
      out' := out;
    }
  }

  /** The inner loop: push one entry per non-blank block of page `p`. */
  method PushBlocks(out: seq<OcrEntry>, p: nat, blocks: seq<JsValue>) returns (out': seq<OcrEntry>)
    ensures out' == out + BlockEntries(p, blocks)
  {
    out' := out;
    var b := 0;
    while b < |blocks|
      invariant 0 <= b <= |blocks|
      invariant out' == out + BlockEntries(p, blocks[..b])
    {
      var txt := BlockText(blocks[b]);
      BlockEntriesSnoc(p, blocks, b);
      ConcatAssoc(out, BlockEntries(p, blocks[..b]), BlockEntry(p, b, blocks[b]));
      if txt != "" {
        out' := out' + [OcrEntry(p, b, txt)];
      } else {
        assert BlockEntry(p, b, blocks[b]) == [];
      }
      assert out' == out + BlockEntries(p, blocks[..b + 1]);
      b := b + 1;
    }
    assert blocks[..b] == blocks;
  }
}
