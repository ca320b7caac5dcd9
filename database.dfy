/**
 * The Database class (main.py:85-201): the three sqlite tables held as maps that each
 * method reads or replaces; connections, transactions and SQL text are not modelled.
 */
module Db {
  import opened Store

  /** A row of the seen-posts listing query: hash, url, title, was_posted, created_at. */
  datatype Row = Row(hash: Hash, url: string, title: string, wasPosted: bool, createdAt: Timestamp)

  function RowOf(h: Hash, p: SeenPost): Row {
    Row(h, p.url, p.title, p.wasPosted, p.createdAt)
  }

  /** Every row is the stored row of its hash, and belongs to `feedUrl`. */
  predicate RowsOfFeed(m: SeenPosts, feedUrl: string, rows: seq<Row>) {
    forall i :: 0 <= i < |rows| ==>
      rows[i].hash in m && m[rows[i].hash].feedUrl == feedUrl && rows[i] == RowOf(rows[i].hash, m[rows[i].hash])
  }

  /** Every stored hash of `feedUrl` outside `left` has a row. */
  predicate CoversFeed(m: SeenPosts, feedUrl: string, rows: seq<Row>, left: set<Hash>) {
    forall h :: h in m && m[h].feedUrl == feedUrl && h !in left ==> exists i :: 0 <= i < |rows| && rows[i].hash == h
  }

  predicate DistinctHashes(rows: seq<Row>) {
    forall i, j :: 0 <= i < j < |rows| ==> rows[i].hash != rows[j].hash
  }

  predicate NewestFirst(rows: seq<Row>) {
    forall i, j :: 0 <= i < j < |rows| ==> rows[i].createdAt >= rows[j].createdAt
  }

  /**
   * `rows` is a result of SELECT hash, url, title, was_posted, created_at FROM seen_posts
   * WHERE feed_url = ? ORDER BY created_at DESC (main.py:579-584) over `m`: every row of
   * that feed exactly once, newest first; rows with equal timestamps come in any order.
   */
  predicate IsListing(m: SeenPosts, feedUrl: string, rows: seq<Row>) {
    RowsOfFeed(m, feedUrl, rows) && CoversFeed(m, feedUrl, rows, {}) && DistinctHashes(rows) && NewestFirst(rows)
  }

  /** A finite non-empty set of stored hashes has a newest member. */
  lemma {:induction false} NewestExists(left: set<Hash>, m: SeenPosts)
    requires left != {} && left <= m.Keys
    ensures exists h :: h in left && forall k :: k in left ==> m[k].createdAt <= m[h].createdAt
  {
    var x :| x in left;
    if left == {x} {
      assert forall k :: k in left ==> m[k].createdAt <= m[x].createdAt;
    } else {
      assert left - {x} != {};
      NewestExists(left - {x}, m);
      var y :| y in left - {x} && forall k :: k in left - {x} ==> m[k].createdAt <= m[y].createdAt;
      if m[x].createdAt <= m[y].createdAt {
        assert forall k :: k in left ==> m[k].createdAt <= m[y].createdAt;
      } else {
        assert forall k :: k in left ==> m[k].createdAt <= m[x].createdAt;
      }
    }
  }

  /** The state of the listing loop: `rows` holds the newest of the feed's rows, `left` the rest. */
  predicate ListingSoFar(m: SeenPosts, feedUrl: string, rows: seq<Row>, left: set<Hash>) {
    && left <= m.Keys
    && (forall h :: h in left ==> m[h].feedUrl == feedUrl)
    && RowsOfFeed(m, feedUrl, rows)
    && (forall i :: 0 <= i < |rows| ==> rows[i].hash !in left)
    && CoversFeed(m, feedUrl, rows, left)
    && DistinctHashes(rows)
    && NewestFirst(rows)
    && (forall i, h :: 0 <= i < |rows| && h in left ==> rows[i].createdAt >= m[h].createdAt)
  }

  /** Moving the newest remaining hash to the end of the rows keeps the loop's state. */
  lemma AppendNewest(m: SeenPosts, feedUrl: string, rows: seq<Row>, left: set<Hash>, h: Hash)
    requires ListingSoFar(m, feedUrl, rows, left)
    requires h in left && forall k :: k in left ==> m[k].createdAt <= m[h].createdAt
    ensures ListingSoFar(m, feedUrl, rows + [RowOf(h, m[h])], left - {h})
  {
    AppendNewestRows(m, feedUrl, rows, left, h);
    AppendNewestOrder(m, feedUrl, rows, left, h);
  }

  lemma AppendNewestRows(m: SeenPosts, feedUrl: string, rows: seq<Row>, left: set<Hash>, h: Hash)
    requires ListingSoFar(m, feedUrl, rows, left)
    requires h in left
    ensures RowsOfFeed(m, feedUrl, rows + [RowOf(h, m[h])])
    ensures forall i :: 0 <= i < |rows| + 1 ==> (rows + [RowOf(h, m[h])])[i].hash !in left - {h}
    ensures CoversFeed(m, feedUrl, rows + [RowOf(h, m[h])], left - {h})
  {
    var rows', left' := rows + [RowOf(h, m[h])], left - {h};
    var n := |rows|;
    assert forall i :: 0 <= i < n ==> rows'[i] == rows[i];
    assert rows'[n] == RowOf(h, m[h]);
    forall k | k in m && m[k].feedUrl == feedUrl && k !in left'
      ensures exists i :: 0 <= i < |rows'| && rows'[i].hash == k
    {
      if k == h {
        assert rows'[n].hash == k;
      } else {
        var i :| 0 <= i < n && rows[i].hash == k;
        assert rows'[i].hash == k;
      }
    }
  }

  lemma AppendNewestOrder(m: SeenPosts, feedUrl: string, rows: seq<Row>, left: set<Hash>, h: Hash)
    requires ListingSoFar(m, feedUrl, rows, left)
    requires h in left && forall k :: k in left ==> m[k].createdAt <= m[h].createdAt
    ensures DistinctHashes(rows + [RowOf(h, m[h])])
    ensures NewestFirst(rows + [RowOf(h, m[h])])
    ensures forall i, k :: 0 <= i < |rows| + 1 && k in left - {h} ==> (rows + [RowOf(h, m[h])])[i].createdAt >= m[k].createdAt
  {
    var rows' := rows + [RowOf(h, m[h])];
    var n := |rows|;
    assert forall i :: 0 <= i < n ==> rows'[i] == rows[i];
    assert rows'[n] == RowOf(h, m[h]);
    forall i, j | 0 <= i < j < |rows'| ensures rows'[i].hash != rows'[j].hash {
      if j == n { assert rows[i].hash !in left; }
    }
    forall i, j | 0 <= i < j < |rows'| ensures rows'[i].createdAt >= rows'[j].createdAt {
      if j == n { assert rows'[j].createdAt == m[h].createdAt; }
    }
  }

  /** One entry of get_all_admins: the id and bool(is_sa). */
  datatype AdminInfo = AdminInfo(userId: int, isSa: bool)

  /**
   * `all` lists the admins outside `left` once each, with bool(is_sa) as the flag;
   * with `left` empty it lists every admin.
   */
  predicate AdminsListed(admins: Admins, all: seq<AdminInfo>, left: set<int>) {
    && left <= admins.Keys
    && (forall i :: 0 <= i < |all| ==>
          all[i].userId in admins && all[i].userId !in left && all[i].isSa == (admins[all[i].userId] != 0))
    && (forall u :: u in admins && u !in left ==> exists i :: 0 <= i < |all| && all[i].userId == u)
    && (forall i, j :: 0 <= i < j < |all| ==> all[i].userId != all[j].userId)
  }

  lemma HasMember(s: set<int>)
    requires s != {}
    ensures exists x :: x in s
  {
    if forall x :: x !in s {
      assert false;
    }
  }

  lemma AppendAdmin(admins: Admins, all: seq<AdminInfo>, left: set<int>, u: int)
    requires AdminsListed(admins, all, left)
    requires u in left
    ensures AdminsListed(admins, all + [AdminInfo(u, admins[u] != 0)], left - {u})
  {
    var all' := all + [AdminInfo(u, admins[u] != 0)];
    forall v | v in admins && v !in left - {u}
      ensures exists i :: 0 <= i < |all'| && all'[i].userId == v
    {
      if v == u {
        assert all'[|all|].userId == v;
      } else {
        var i :| 0 <= i < |all| && all[i].userId == v;
        assert all'[i].userId == v;
      }
    }
  }

  class Database {
    var seenPosts: SeenPosts
    var activeFeeds: Feeds
    var admins: Admins

    /** Opening the file: CREATE TABLE IF NOT EXISTS keeps the rows a previous run left. */
    constructor Open(seen: SeenPosts, feeds: Feeds, adminRows: Admins)
      ensures seenPosts == seen && activeFeeds == feeds && admins == adminRows
    {
      seenPosts, activeFeeds, admins := seen, feeds, adminRows;
    }

    /** add_seen_post (main.py:117-123). */
    method AddSeenPost(h: Hash, feedUrl: string, url: string, title: string, now: Timestamp)
      modifies this
      ensures seenPosts == Insert(old(seenPosts), h, feedUrl, url, title, now)
      ensures activeFeeds == old(activeFeeds) && admins == old(admins)
    {
      if h !in seenPosts {
        seenPosts := seenPosts[h := SeenPost(feedUrl, url, title, false, now)];
      }
    }

    /** mark_as_posted (main.py:125-130). */
    method MarkAsPosted(h: Hash)
      modifies this
      ensures seenPosts == MarkPosted(old(seenPosts), h)
      ensures activeFeeds == old(activeFeeds) && admins == old(admins)
    {
      if h in seenPosts {
        seenPosts := seenPosts[h := seenPosts[h].(wasPosted := true)];
      }
    }

    /** is_post_seen (main.py:132-137). */
    method IsPostSeen(h: Hash) returns (seen: bool)
      ensures seen <==> h in seenPosts
    {
      seen := h in seenPosts;
    }

    /** add_active_feed (main.py:139-145): INSERT OR REPLACE, last_check := CURRENT_TIMESTAMP. */
    method AddActiveFeed(url: string, interval: int, now: Timestamp)
      modifies this
      ensures activeFeeds == old(activeFeeds)[url := FeedRow(interval, now)]
      ensures seenPosts == old(seenPosts) && admins == old(admins)
    {
      activeFeeds := activeFeeds[url := FeedRow(interval, now)];
    }

    /** remove_active_feed (main.py:147-152): no error when the url is absent. */
    method RemoveActiveFeed(url: string)
      modifies this
      ensures activeFeeds == old(activeFeeds) - {url}
      ensures seenPosts == old(seenPosts) && admins == old(admins)
    {
      activeFeeds := activeFeeds - {url};
    }

    /** get_active_feeds (main.py:154-158). */
    method GetActiveFeeds() returns (feeds: map<string, int>)
      ensures feeds.Keys == activeFeeds.Keys
      ensures forall u :: u in activeFeeds ==> feeds[u] == activeFeeds[u].interval
    {
      feeds := Intervals(activeFeeds);
    }

    /** add_admin (main.py:161-167). */
    method AddAdmin(userId: int, isSa: bool)
      modifies this
      ensures admins == PutAdmin(old(admins), userId, isSa)
      ensures seenPosts == old(seenPosts) && activeFeeds == old(activeFeeds)
    {
      admins := admins[userId := if isSa then 1 else 0];
    }

    /** remove_admin (main.py:169-174). */
    method RemoveAdmin(userId: int)
      modifies this
      ensures admins == old(admins) - {userId}
      ensures seenPosts == old(seenPosts) && activeFeeds == old(activeFeeds)
    {
      admins := admins - {userId};
    }

    /** is_admin (main.py:176-181). */
    method IsAdmin(userId: int) returns (r: bool)
      ensures r <==> userId in admins
    {
      r := userId in admins;
    }

    /** is_super_admin (main.py:183-189). */
    method IsSuperAdminCheck(userId: int) returns (r: bool)
      ensures r <==> userId in admins && admins[userId] == 1
    {
      r := userId in admins && admins[userId] == 1;
    }

    /** get_all_admins (main.py:191-201): every admin once, with bool(is_sa); table order is not modelled. */
    method GetAllAdmins() returns (all: seq<AdminInfo>)
      ensures AdminsListed(admins, all, {})
    {
      var left: set<int> := admins.Keys;
      all := [];
      while left != {}
        invariant AdminsListed(admins, all, left)
        decreases left
      {
        HasMember(left);
        var u :| u in left;
        AppendAdmin(admins, all, left, u);
        all := all + [AdminInfo(u, admins[u] != 0)];
        left := left - {u};
      }
    }

    /** The query of get_seen_posts_handler (main.py:579-584), newest first. */
    method SeenPostsOf(feedUrl: string) returns (rows: seq<Row>)
      ensures IsListing(seenPosts, feedUrl, rows)
    {
      var left := set h | h in seenPosts && seenPosts[h].feedUrl == feedUrl;
      rows := [];
      while left != {}
        invariant ListingSoFar(seenPosts, feedUrl, rows, left)
        decreases left
      {
        NewestExists(left, seenPosts);
        var h :| h in left && forall k :: k in left ==> seenPosts[k].createdAt <= seenPosts[h].createdAt;
        AppendNewest(seenPosts, feedUrl, rows, left, h);
        rows := rows + [RowOf(h, seenPosts[h])];
        left := left - {h};
      }
    }
  }
}
