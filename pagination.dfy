/** Cursor pagination of the document listing: the effective page size, the cursor
    (the last id seen), and the page a listing returns, newest document first. */
module Pagination {
  import opened Wrappers
  import opened JsConversions
  import opened DocumentModel

  const DefaultPageSize: nat := 20
  const MinPageSize: nat := 1
  const MaxPageSize: nat := 100

  function Min(a: int, b: int): int { if a <= b then a else b }

  function Max(a: int, b: int): int { if a >= b then a else b }

  /** `Math.max(1, Math.min(100, limit))` for a finite limit, 20 otherwise. */
  function PageSize(limit: Number): (size: nat)
    ensures MinPageSize <= size <= MaxPageSize
    ensures limit.IsFinite() && MinPageSize <= limit.value <= MaxPageSize ==> size == limit.value
    ensures limit.IsFinite() && limit.value < MinPageSize ==> size == MinPageSize
    ensures limit.IsFinite() && limit.value > MaxPageSize ==> size == MaxPageSize
    ensures !limit.IsFinite() ==> size == DefaultPageSize
  {
    if limit.IsFinite() then Max(MinPageSize, Min(MaxPageSize, limit.value)) as nat else DefaultPageSize
  }

  /** The last id seen, read from the cursor: the cursor's number when the cursor is
      present, non-empty, and reads as a finite number that is at least 0; otherwise 0,
      which means "start from the newest document". */
  function CursorPosition(cursor: Option<string>): (lastId: nat)
    ensures lastId > 0 ==> cursor.Some? && ParseNumber(cursor.value) == Int(lastId)
    ensures cursor.None? || cursor.value == "" ==> lastId == 0
    ensures cursor.Some? && cursor.value != "" && ParseNumber(cursor.value).IsFinite() && ParseNumber(cursor.value).value >= 0 ==>
      lastId == ParseNumber(cursor.value).value
  {
    if cursor.Some? && cursor.value != "" then
      var parsed := ParseNumber(cursor.value);
      if parsed.IsFinite() && parsed.value >= 0 then parsed.value else 0
    else 0
  }

  /** A cursor written with `String(id)` reads back as that id. */
  lemma CursorOfId(id: nat)
    ensures CursorPosition(Some(NatToString(id))) == id
  {
    ParseNatToString(id);
  }

  predicate StrictlyDescending(s: seq<int>) {
    forall i, j :: 0 <= i < j < |s| ==> s[i] > s[j]
  }

  /** `SELECT id ... WHERE id < bound ORDER BY id DESC`: exactly the keys below `bound`,
      largest first. */
  function IdsBelow(keys: set<nat>, bound: nat): (ids: seq<nat>)
    ensures forall i :: 0 <= i < |ids| ==> ids[i] in keys && ids[i] < bound
    decreases bound
  {
    if bound == 0 then []
    else
      var rest := IdsBelow(keys, bound - 1);
      if bound - 1 in keys then [bound - 1] + rest else rest
  }

  /** The listing is newest first. */
  lemma {:induction false} IdsBelowDescending(keys: set<nat>, bound: nat)
    ensures StrictlyDescending(IdsBelow(keys, bound))
    decreases bound
  {
    if bound > 0 {
      IdsBelowDescending(keys, bound - 1);
    }
  }

  /** Every key below the bound is listed. */
  lemma {:induction false} IdsBelowComplete(keys: set<nat>, bound: nat, k: nat)
    requires k in keys && k < bound
    ensures k in IdsBelow(keys, bound)
    decreases bound
  {
    if k < bound - 1 {
      IdsBelowComplete(keys, bound - 1, k);
    }
  }

  /** Everything that follows a listed id is what lies below it. */
  lemma {:induction false} IdsBelowSuffix(keys: set<nat>, bound: nat, j: nat)
    requires j < |IdsBelow(keys, bound)|
    ensures IdsBelow(keys, IdsBelow(keys, bound)[j]) == IdsBelow(keys, bound)[j + 1..]
    decreases bound
  {
    var ids := IdsBelow(keys, bound);
    var rest := IdsBelow(keys, bound - 1);
    if bound - 1 in keys {
      assert ids == [bound - 1] + rest;
      if j > 0 {
        IdsBelowSuffix(keys, bound - 1, j - 1);
        assert ids[j] == rest[j - 1] && ids[j + 1..] == rest[j..];
      } else {
        assert ids[1..] == rest;
      }
    } else {
      assert ids == rest;
      IdsBelowSuffix(keys, bound - 1, j);
    }
  }

  /** The exclusive upper bound a listing filters ids by: the cursor when it is positive,
      otherwise one past every id the store has handed out. */
  function ListBound(lastId: nat, nextId: nat): nat {
    if lastId > 0 then lastId else nextId
  }

  /** The ids of every document a listing from `cursor` may show, newest first. */
  function MatchingIds(documents: map<nat, DocumentRow>, nextId: nat, cursor: Option<string>): (ids: seq<nat>)
    ensures forall i :: 0 <= i < |ids| ==> ids[i] in documents
  {
    IdsBelow(documents.Keys, ListBound(CursorPosition(cursor), nextId))
  }

  function ListItem(id: nat, row: DocumentRow): DocumentListItem {
    DocumentListItem(id, row.content, row.createdAt, row.updatedAt)
  }

  function ListItems(documents: map<nat, DocumentRow>, ids: seq<nat>): (items: seq<DocumentListItem>)
    requires forall i :: 0 <= i < |ids| ==> ids[i] in documents
  {
    seq(|ids|, i requires 0 <= i < |ids| => ListItem(ids[i], documents[ids[i]]))
  }

  /** The page a listing returns: the first `PageSize(limit)` matching documents, and a
      next cursor exactly when more match. */
  function ListPage(documents: map<nat, DocumentRow>, nextId: nat, limit: Number, cursor: Option<string>): CursorPage<DocumentListItem> {
    var all := MatchingIds(documents, nextId, cursor);
    var size := PageSize(limit);
    if |all| <= size then CursorPage(ListItems(documents, all), None)
    else CursorPage(ListItems(documents, all[..size]), Some(NatToString(all[size - 1])))
  }

  /** What a page holds: at most a page of items, the newest matching documents in
      strictly descending id order, each below the cursor and equal to its stored row;
      and a next cursor exactly when more documents match, naming the last item. */
  ghost predicate IsPageOf(page: CursorPage<DocumentListItem>, documents: map<nat, DocumentRow>, nextId: nat, limit: Number, cursor: Option<string>) {
    var all := MatchingIds(documents, nextId, cursor);
    var lastId := CursorPosition(cursor);
    && |page.items| == Min(PageSize(limit), |all|)
    && (forall i :: 0 <= i < |page.items| ==> page.items[i].id == all[i])
    && (forall i, j :: 0 <= i < j < |page.items| ==> page.items[i].id > page.items[j].id)
    && (forall i :: 0 <= i < |page.items| ==>
          && page.items[i].id in documents
          && (lastId > 0 ==> page.items[i].id < lastId)
          && page.items[i] == ListItem(page.items[i].id, documents[page.items[i].id]))
    && (page.nextCursor.Some? <==> |all| > PageSize(limit))
    && (page.nextCursor.Some? ==> page.items != [] && CursorPosition(page.nextCursor) == page.items[|page.items| - 1].id)
  }

  lemma ListPageProperties(documents: map<nat, DocumentRow>, nextId: nat, limit: Number, cursor: Option<string>)
    ensures IsPageOf(ListPage(documents, nextId, limit, cursor), documents, nextId, limit, cursor)
  {
    var all := MatchingIds(documents, nextId, cursor);
    var size := PageSize(limit);
    IdsBelowDescending(documents.Keys, ListBound(CursorPosition(cursor), nextId));
    if |all| > size {
      CursorOfId(all[size - 1]);
    }
  }

  /** Without a cursor every stored document matches. */
  lemma FirstPageCoversAll(documents: map<nat, DocumentRow>, nextId: nat)
    requires forall id :: id in documents ==> id < nextId
    ensures forall id :: id in documents ==> id in MatchingIds(documents, nextId, None)
  {
    forall id | id in documents
      ensures id in MatchingIds(documents, nextId, None)
    {
      IdsBelowComplete(documents.Keys, nextId, id);
    }
  }

  /** Following `nextCursor` resumes exactly where the page ended: the documents that match
      the next cursor are those that matched this one, minus the page just returned. So no
      document is repeated and none is skipped. */
  lemma NextCursorResumes(documents: map<nat, DocumentRow>, nextId: nat, limit: Number, cursor: Option<string>)
    requires forall id :: id in documents ==> id >= 1
    requires ListPage(documents, nextId, limit, cursor).nextCursor.Some?
    ensures var page := ListPage(documents, nextId, limit, cursor);
      var all := MatchingIds(documents, nextId, cursor);
      && |all| > PageSize(limit)
      && MatchingIds(documents, nextId, page.nextCursor) == all[PageSize(limit)..]
  {
    var all := MatchingIds(documents, nextId, cursor);
    var size := PageSize(limit);
    var last := all[size - 1];
    CursorOfId(last);
    assert ListBound(last, nextId) == last;
    IdsBelowSuffix(documents.Keys, ListBound(CursorPosition(cursor), nextId), size - 1);
  }
}
