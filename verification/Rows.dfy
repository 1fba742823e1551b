/** The rows of the feed reader's database and the values its columns take.
    Times are unix seconds, as the columns store them. */
module Rows {

  datatype Option<+T> = None | Some(value: T)

  type Id = int

  datatype ExtractState = ExtractNone | ExtractPending | ExtractDone | ExtractFailed

  datatype Status = Unread | Read

  /** The columns of a feed row that only a poll's write-back may change. */
  datatype PollState = PollState(
    siteUrl: string, title: string, description: string,
    etag: string, lastModified: string,
    disabled: bool, checkedAt: Option<int>, nextCheckAt: int,
    errorCount: int, lastError: string, updatedAt: int, ttl: int)

  /** A feed row: identity, the user-owned columns, and the poll-owned ones. */
  datatype Feed = Feed(
    userId: Id, feedUrl: string, createdAt: int,
    categoryId: Option<Id>, fullContent: bool, userTitle: string,
    poll: PollState)

  /** The feed-owned fields of an entry, refreshed whenever its hash changes. */
  datatype Meta = Meta(
    url: string, title: string, author: string, summary: string,
    commentsUrl: string, publishedAt: int, hash: string)

  datatype Reader = Reader(status: Status, starred: bool, readAt: Option<int>)

  datatype Extraction = Extraction(state: ExtractState, attempts: int, nextAt: Option<int>, error: string)

  datatype Entry = Entry(
    userId: Id, feedId: Id, guid: string, createdAt: int,
    meta: Meta, content: string,
    contentText: string, summaryText: string,
    reader: Reader, extraction: Extraction)

  /** An entry as a poll hands it to the store, before it has a row. */
  datatype NewEntry = NewEntry(userId: Id, guid: string, meta: Meta, content: string, createdAt: int)

  datatype Category = Category(userId: Id, title: string)

  /** What the full-text index holds for one row. */
  datatype Doc = Doc(title: string, content: string, summary: string)

  /** The external-content index. `corrupt` records a command whose values did not
      match what the index held, which such an index cannot recover from. */
  datatype Fts = Fts(docs: map<Id, Doc>, corrupt: bool)

  datatype Db = Db(
    users: set<Id>,
    categories: map<Id, Category>,
    feeds: map<Id, Feed>,
    entries: map<Id, Entry>,
    tombstones: set<(Id, string)>,
    nextCategory: Id,
    nextFeed: Id,
    nextEntry: Id,
    fts: Fts,
    updateTrigger: bool,   // the trigger entries_au exists
    backfilled: bool)      // the settings row fts_backfill_0013 exists

  datatype Outcome = Ok | NotFound | Conflict

  /** A freshly migrated database with these users. */
  function EmptyDb(users: set<Id>): Db {
    Db(users, map[], map[], map[], {}, 1, 1, 1, Fts(map[], false), true, true)
  }

  lemma SameMap<V>(a: map<Id, V>, b: map<Id, V>)
    requires a.Keys == b.Keys && forall k | k in a.Keys :: a[k] == b[k]
    ensures a == b
  {
    assert forall k | k in a.Keys :: a[k] == b[k];
  }
}
