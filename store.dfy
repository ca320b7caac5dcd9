/**
 * The rows of the seen_posts, active_feeds and admins tables as values, and the
 * single-statement updates the Database class applies to them.
 */
module Store {

  type Hash = string

  /** Seconds; the model compares timestamps and never parses them. */
  type Timestamp = int

  /** A seen_posts row without its key (main.py:93-100). */
  datatype SeenPost = SeenPost(feedUrl: string, url: string, title: string, wasPosted: bool, createdAt: Timestamp)

  type SeenPosts = map<Hash, SeenPost>

  /** An active_feeds row without its key (main.py:103-107). */
  datatype FeedRow = FeedRow(interval: int, lastCheck: Timestamp)

  type Feeds = map<string, FeedRow>

  /** user_id -> is_sa as stored, the integer int(is_sa) (main.py:111-114). */
  type Admins = map<int, int>

  /** INSERT OR IGNORE: a new hash gets a fresh unposted row, an existing one is kept. */
  function Insert(m: SeenPosts, h: Hash, feedUrl: string, url: string, title: string, now: Timestamp): (r: SeenPosts)
    ensures r.Keys == m.Keys + {h}
    ensures forall k :: k in m ==> r[k] == m[k]
    ensures h !in m ==> r[h] == SeenPost(feedUrl, url, title, false, now)
  {
    if h in m then m else m[h := SeenPost(feedUrl, url, title, false, now)]
  }

  /** UPDATE ... SET was_posted = 1 WHERE hash = ?: only that row's flag changes, and no row is added. */
  function MarkPosted(m: SeenPosts, h: Hash): (r: SeenPosts)
    ensures r.Keys == m.Keys
    ensures forall k :: k in m && k != h ==> r[k] == m[k]
    ensures h in m ==> r[h] == m[h].(wasPosted := true)
  {
    if h in m then m[h := m[h].(wasPosted := true)] else m
  }

  /** Recording the same hash twice leaves the first record, so exactly one row exists. */
  lemma InsertIdempotent(m: SeenPosts, h: Hash, f1: string, u1: string, t1: string, n1: Timestamp,
                         f2: string, u2: string, t2: string, n2: Timestamp)
    ensures Insert(Insert(m, h, f1, u1, t1, n1), h, f2, u2, t2, n2) == Insert(m, h, f1, u1, t1, n1)
  {
  }

  /** Marking never unmarks and never creates: a second mark, or a mark of an unknown hash, is a no-op. */
  lemma MarkPostedIdempotent(m: SeenPosts, h: Hash)
    ensures MarkPosted(MarkPosted(m, h), h) == MarkPosted(m, h)
    ensures h !in m ==> MarkPosted(m, h) == m
  {
  }

  /** A re-insert after the mark does not reset the flag: was_posted only goes from false to true. */
  lemma InsertKeepsPostedFlag(m: SeenPosts, h: Hash, f: string, u: string, t: string, n: Timestamp)
    requires h in m
    ensures Insert(MarkPosted(m, h), h, f, u, t, n)[h].wasPosted
  {
  }

  /** The feed_url -> interval dict that get_active_feeds builds from the rows (main.py:154-158). */
  function Intervals(feeds: Feeds): (r: map<string, int>)
    ensures r.Keys == feeds.Keys
    ensures forall u :: u in feeds ==> r[u] == feeds[u].interval
  {
    map u | u in feeds :: feeds[u].interval
  }

  /** is_super_admin (main.py:183-189): a row exists and its stored is_sa is 1. */
  predicate IsSuperAdmin(admins: Admins, userId: int) {
    userId in admins && admins[userId] == 1
  }

  /** INSERT OR REPLACE of (user_id, int(is_sa)) (main.py:161-167). */
  function PutAdmin(admins: Admins, userId: int, isSa: bool): (r: Admins)
    ensures r.Keys == admins.Keys + {userId}
    ensures forall u :: u in admins && u != userId ==> r[u] == admins[u]
    ensures IsSuperAdmin(r, userId) == isSa
  {
    admins[userId := if isSa then 1 else 0]
  }
}
