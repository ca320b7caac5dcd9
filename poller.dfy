/**
 * One poll of a feed (parse_rss_feed, main.py:254-277) and the monitoring loop that
 * repeats it (monitor_feed, main.py:297-311). feedparser, the completion client and the
 * Telegram send are the fields of a World: what the outside answers during one cycle.
 */
module Poller {
  import opened Wrappers
  import opened Store
  import opened Feed
  import opened Retry
  import Db

  /** The state of the parse loop: the store so far and the entries it found unseen, in feed order. */
  datatype PassState = PassState(store: SeenPosts, unseen: seq<Entry>)

  /**
   * The loop at main.py:265-270 over `entries`: an entry whose hash is not stored yet is
   * appended to `unseen` and inserted, so a later entry with the same hash counts as seen.
   */
  function Pass(digest: string -> string, store: SeenPosts, feedUrl: string, entries: seq<Entry>, now: Timestamp): PassState
    decreases |entries|
  {
    if entries == [] then PassState(store, [])
    else PassEntry(digest, feedUrl, now, Pass(digest, store, feedUrl, entries[..|entries| - 1], now), entries[|entries| - 1])
  }

  /** One iteration of that loop. */
  function PassEntry(digest: string -> string, feedUrl: string, now: Timestamp, prev: PassState, e: Entry): PassState {
    var h := PostHash(digest, e);
    if h in prev.store then prev
    else PassState(Insert(prev.store, h, feedUrl, e.link, e.title, now), prev.unseen + [e])
  }

  function HashesOf(digest: string -> string, es: seq<Entry>): set<Hash> {
    set i | 0 <= i < |es| :: PostHash(digest, es[i])
  }

  lemma HashesOfSnoc(digest: string -> string, es: seq<Entry>)
    requires es != []
    ensures HashesOf(digest, es) == HashesOf(digest, es[..|es| - 1]) + {PostHash(digest, es[|es| - 1])}
  {
    var init := es[..|es| - 1];
    forall h | h in HashesOf(digest, es)
      ensures h in HashesOf(digest, init) + {PostHash(digest, es[|es| - 1])}
    {
      var i :| 0 <= i < |es| && PostHash(digest, es[i]) == h;
      if i < |es| - 1 {
        assert init[i] == es[i];
      }
    }
    forall h | h in HashesOf(digest, init)
      ensures h in HashesOf(digest, es)
    {
      var i :| 0 <= i < |init| && PostHash(digest, init[i]) == h;
      assert es[i] == init[i];
    }
    assert PostHash(digest, es[|es| - 1]) in HashesOf(digest, es);
  }

  /** After a pass every entry's hash is stored, and every record stored before is untouched. */
  lemma {:induction false} PassKeeps(digest: string -> string, store: SeenPosts, feedUrl: string, entries: seq<Entry>, now: Timestamp)
    ensures Pass(digest, store, feedUrl, entries, now).store.Keys == store.Keys + HashesOf(digest, entries)
    ensures forall h :: h in store ==> Pass(digest, store, feedUrl, entries, now).store[h] == store[h]
    decreases |entries|
  {
    if entries == [] {
      assert HashesOf(digest, entries) == {};
    } else {
      PassKeeps(digest, store, feedUrl, entries[..|entries| - 1], now);
      HashesOfSnoc(digest, entries);
    }
  }

  /** A selected entry's record: unposted, of this feed, with the entry's link and title. */
  predicate RecordedAsUnseen(digest: string -> string, store: SeenPosts, r: PassState, feedUrl: string, now: Timestamp, e: Entry) {
    && PostHash(digest, e) !in store
    && PostHash(digest, e) in r.store
    && r.store[PostHash(digest, e)] == SeenPost(feedUrl, e.link, e.title, false, now)
  }

  /**
   * Each entry a pass selects comes from the feed, was unseen at the start, and now has
   * an unposted record of this feed.
   */
  lemma {:induction false} PassUnseenRecorded(digest: string -> string, store: SeenPosts, feedUrl: string, entries: seq<Entry>, now: Timestamp)
    ensures forall i :: 0 <= i < |Pass(digest, store, feedUrl, entries, now).unseen| ==>
      && Pass(digest, store, feedUrl, entries, now).unseen[i] in entries
      && RecordedAsUnseen(digest, store, Pass(digest, store, feedUrl, entries, now), feedUrl, now, Pass(digest, store, feedUrl, entries, now).unseen[i])
    decreases |entries|
  {
    if entries != [] {
      var init := entries[..|entries| - 1];
      var e := entries[|entries| - 1];
      assert entries == init + [e];
      PassUnseenRecorded(digest, store, feedUrl, init, now);
      PassKeeps(digest, store, feedUrl, init, now);
      var prev := Pass(digest, store, feedUrl, init, now);
      var h := PostHash(digest, e);
      if h !in prev.store {
        var r := PassState(Insert(prev.store, h, feedUrl, e.link, e.title, now), prev.unseen + [e]);
        assert Pass(digest, store, feedUrl, entries, now) == r;
        forall i | 0 <= i < |r.unseen|
          ensures r.unseen[i] in entries && RecordedAsUnseen(digest, store, r, feedUrl, now, r.unseen[i])
        {
          if i < |prev.unseen| {
            assert r.unseen[i] == prev.unseen[i];
            assert RecordedAsUnseen(digest, store, prev, feedUrl, now, prev.unseen[i]);
          }
        }
      }
    }
  }

  /** No two selected entries share a hash: a repeated entry is selected at most once. */
  lemma {:induction false} PassUnseenDistinct(digest: string -> string, store: SeenPosts, feedUrl: string, entries: seq<Entry>, now: Timestamp)
    ensures forall i, j :: 0 <= i < j < |Pass(digest, store, feedUrl, entries, now).unseen| ==>
      PostHash(digest, Pass(digest, store, feedUrl, entries, now).unseen[i]) != PostHash(digest, Pass(digest, store, feedUrl, entries, now).unseen[j])
    decreases |entries|
  {
    if entries != [] {
      var init := entries[..|entries| - 1];
      var e := entries[|entries| - 1];
      PassUnseenDistinct(digest, store, feedUrl, init, now);
      PassUnseenRecorded(digest, store, feedUrl, init, now);
      var prev := Pass(digest, store, feedUrl, init, now);
      var h := PostHash(digest, e);
      if h !in prev.store {
        var u := prev.unseen + [e];
        assert Pass(digest, store, feedUrl, entries, now).unseen == u;
        forall i, j | 0 <= i < j < |u| ensures PostHash(digest, u[i]) != PostHash(digest, u[j]) {
          if j == |prev.unseen| {
            assert u[i] == prev.unseen[i] && u[j] == e;
            assert RecordedAsUnseen(digest, store, prev, feedUrl, now, prev.unseen[i]);
          } else {
            assert u[i] == prev.unseen[i] && u[j] == prev.unseen[j];
          }
        }
      }
    }
  }

  /** Every record a pass adds belongs to one of the entries it selects. */
  lemma {:induction false} PassNewRecords(digest: string -> string, store: SeenPosts, feedUrl: string, entries: seq<Entry>, now: Timestamp)
    ensures forall h :: h in Pass(digest, store, feedUrl, entries, now).store && h !in store ==>
      exists i :: 0 <= i < |Pass(digest, store, feedUrl, entries, now).unseen| && PostHash(digest, Pass(digest, store, feedUrl, entries, now).unseen[i]) == h
    decreases |entries|
  {
    if entries != [] {
      var init := entries[..|entries| - 1];
      var e := entries[|entries| - 1];
      PassNewRecords(digest, store, feedUrl, init, now);
      var prev := Pass(digest, store, feedUrl, init, now);
      var h := PostHash(digest, e);
      if h !in prev.store {
        var r := PassState(Insert(prev.store, h, feedUrl, e.link, e.title, now), prev.unseen + [e]);
        assert Pass(digest, store, feedUrl, entries, now) == r;
        forall k | k in r.store && k !in store
          ensures exists i :: 0 <= i < |r.unseen| && PostHash(digest, r.unseen[i]) == k
        {
          if k == h {
            assert PostHash(digest, r.unseen[|prev.unseen|]) == k;
          } else {
            var i :| 0 <= i < |prev.unseen| && PostHash(digest, prev.unseen[i]) == k;
            assert r.unseen[i] == prev.unseen[i];
          }
        }
      }
    }
  }

  /** entries[i] is the first entry, in feed order, whose hash was not stored at the start. */
  predicate FirstUnseenAt(digest: string -> string, store: SeenPosts, entries: seq<Entry>, i: int) {
    && 0 <= i < |entries|
    && PostHash(digest, entries[i]) !in store
    && forall j :: 0 <= j < i ==> PostHash(digest, entries[j]) in store
  }

  /** A pass selects nothing exactly when every entry's hash was already stored. */
  lemma PassEmptyIff(digest: string -> string, store: SeenPosts, feedUrl: string, entries: seq<Entry>, now: Timestamp)
    ensures Pass(digest, store, feedUrl, entries, now).unseen == [] <==>
      forall i :: 0 <= i < |entries| ==> PostHash(digest, entries[i]) in store
  {
    var r := Pass(digest, store, feedUrl, entries, now);
    PassKeeps(digest, store, feedUrl, entries, now);
    PassUnseenRecorded(digest, store, feedUrl, entries, now);
    PassNewRecords(digest, store, feedUrl, entries, now);
    if r.unseen == [] {
      forall i | 0 <= i < |entries| ensures PostHash(digest, entries[i]) in store {
        assert PostHash(digest, entries[i]) in HashesOf(digest, entries);
      }
    } else {
      assert RecordedAsUnseen(digest, store, r, feedUrl, now, r.unseen[0]);
      var k :| 0 <= k < |entries| && entries[k] == r.unseen[0];
      assert PostHash(digest, entries[k]) !in store;
    }
  }

  /** When a pass selects something, the entry it puts first is the first entry unseen at the start. */
  lemma {:induction false} PassFirst(digest: string -> string, store: SeenPosts, feedUrl: string, entries: seq<Entry>, now: Timestamp)
    ensures Pass(digest, store, feedUrl, entries, now).unseen != [] ==>
      exists i :: FirstUnseenAt(digest, store, entries, i) && Pass(digest, store, feedUrl, entries, now).unseen[0] == entries[i]
    decreases |entries|
  {
    var r := Pass(digest, store, feedUrl, entries, now);
    if r.unseen != [] {
      var init := entries[..|entries| - 1];
      var e := entries[|entries| - 1];
      var prev := Pass(digest, store, feedUrl, init, now);
      if prev.unseen != [] {
        PassFirst(digest, store, feedUrl, init, now);
        var i :| FirstUnseenAt(digest, store, init, i) && prev.unseen[0] == init[i];
        assert r.unseen[0] == prev.unseen[0];
        assert entries[i] == init[i];
        assert forall j :: 0 <= j < i ==> entries[j] == init[j];
        assert FirstUnseenAt(digest, store, entries, i);
      } else {
        PassEmptyIff(digest, store, feedUrl, init, now);
        PassKeeps(digest, store, feedUrl, init, now);
        assert r.unseen == [e];
        assert forall j :: 0 <= j < |init| ==> entries[j] == init[j];
        assert FirstUnseenAt(digest, store, entries, |entries| - 1);
      }
    }
  }

  /** Running the same pass again finds nothing new and changes nothing. */
  lemma PassTwiceFindsNothing(digest: string -> string, store: SeenPosts, feedUrl: string, entries: seq<Entry>, now: Timestamp, later: Timestamp)
    ensures var r := Pass(digest, store, feedUrl, entries, now);
      Pass(digest, r.store, feedUrl, entries, later) == PassState(r.store, [])
  {
    var r := Pass(digest, store, feedUrl, entries, now);
    PassKeeps(digest, store, feedUrl, entries, now);
    PassKeeps(digest, r.store, feedUrl, entries, later);
    forall i | 0 <= i < |entries| ensures PostHash(digest, entries[i]) in r.store {
      assert PostHash(digest, entries[i]) in HashesOf(digest, entries);
    }
    PassEmptyIff(digest, r.store, feedUrl, entries, later);
  }

  /** parse_rss_feed's return value: content, link and hash of the selected entry, or three empty strings. */
  datatype Polled = Polled(content: string, link: string, hash: Hash)

  function Selected(digest: string -> string, p: PassState): Polled {
    if p.unseen == [] then Polled("", "", "")
    else Polled(Content(p.unseen[0]), p.unseen[0].link, PostHash(digest, p.unseen[0]))
  }

  /**
   * The result is ("", "", "") exactly when no entry was unseen; otherwise it carries the
   * first unseen entry, and that entry's hash is stored, unposted, once the pass is over.
   */
  lemma SelectedIsFirstUnseen(digest: string -> string, store: SeenPosts, feedUrl: string, entries: seq<Entry>, now: Timestamp)
    ensures var p := Pass(digest, store, feedUrl, entries, now);
      && (Selected(digest, p).content == "" <==> forall i :: 0 <= i < |entries| ==> PostHash(digest, entries[i]) in store)
      && (Selected(digest, p).content != "" ==>
            && (exists i :: FirstUnseenAt(digest, store, entries, i) && Selected(digest, p) == Polled(Content(entries[i]), entries[i].link, PostHash(digest, entries[i])))
            && Selected(digest, p).hash in p.store && !p.store[Selected(digest, p).hash].wasPosted)
  {
    var p := Pass(digest, store, feedUrl, entries, now);
    PassEmptyIff(digest, store, feedUrl, entries, now);
    PassFirst(digest, store, feedUrl, entries, now);
    PassUnseenRecorded(digest, store, feedUrl, entries, now);
  }

  /** parse_rss_feed with its retry: fetch with up to three attempts, then one pass over the entries. */
  method ParseRssFeed(db: Db.Database, digest: string -> string, feedUrl: string,
                      fetch: nat -> Outcome<seq<Entry>>, now: Timestamp)
    returns (result: Outcome<Polled>, attempts: nat)
    modifies db
    ensures attempts == Retried(fetch).attempts
    ensures Retried(fetch).outcome.Err? ==>
      result == Err(Retried(fetch).outcome.error) && db.seenPosts == old(db.seenPosts)
    ensures Retried(fetch).outcome.Ok? ==>
      var p := Pass(digest, old(db.seenPosts), feedUrl, Retried(fetch).outcome.value, now);
      result == Ok(Selected(digest, p)) && db.seenPosts == p.store
    ensures db.activeFeeds == old(db.activeFeeds) && db.admins == old(db.admins)
  {
    var fetched: Outcome<seq<Entry>>;
    fetched, attempts := RunWithRetry(fetch);
    if fetched.Err? {
      result := Err(fetched.error);
      return;
    }
    var entries := fetched.value;
    var unseen: seq<Entry> := [];
    var i := 0;
    while i < |entries|
      invariant 0 <= i <= |entries|
      invariant Pass(digest, old(db.seenPosts), feedUrl, entries[..i], now) == PassState(db.seenPosts, unseen)
      invariant db.activeFeeds == old(db.activeFeeds) && db.admins == old(db.admins)
    {
      assert entries[..i + 1][..i] == entries[..i];
      assert Pass(digest, old(db.seenPosts), feedUrl, entries[..i + 1], now)
        == PassEntry(digest, feedUrl, now, PassState(db.seenPosts, unseen), entries[i]);
      var e := entries[i];
      var h := PostHash(digest, e);
      var seen := db.IsPostSeen(h);
      if !seen {
        unseen := unseen + [e];
        db.AddSeenPost(h, feedUrl, e.link, e.title, now);
      }
      i := i + 1;
    }
    assert entries[..i] == entries;
    if unseen == [] {
      result := Ok(Polled("", "", ""));
    } else {
      var latest := unseen[0];
      result := Ok(Polled(Content(latest), latest.link, PostHash(digest, latest)));
    }
  }

  /**
   * What the outside answers during one monitoring cycle: the fetch attempts, the completion
   * attempts for a given input, whether the channel send succeeds, and the clock.
   */
  datatype World = World(fetch: nat -> Outcome<seq<Entry>>, transform: string -> nat -> Outcome<string>,
                         publish: string -> bool, now: Timestamp)

  /** How one cycle of monitor_feed ends; every exception is caught and only logged. */
  datatype CycleOutcome =
    | FetchFailed(error: string)
    | NothingNew
    | TransformFailed(error: string)
    | PublishFailed(text: string)
    | Published(text: string)

  /** The poll of one cycle, or None when all three fetch attempts failed. */
  function CyclePoll(digest: string -> string, store: SeenPosts, feedUrl: string, w: World): Option<PassState> {
    if Retried(w.fetch).outcome.Err? then None
    else Some(Pass(digest, store, feedUrl, Retried(w.fetch).outcome.value, w.now))
  }

  /** The hash the cycle marks as posted: the selected entry's, when the content is non-empty. */
  function CyclePick(digest: string -> string, store: SeenPosts, feedUrl: string, w: World): Option<Hash> {
    match CyclePoll(digest, store, feedUrl, w)
    case None => None
    case Some(p) => if Selected(digest, p).content == "" then None else Some(Selected(digest, p).hash)
  }

  /** seen_posts after one cycle: the pass's inserts, then the mark of the pick. */
  function CycleStore(digest: string -> string, store: SeenPosts, feedUrl: string, w: World): SeenPosts {
    match CyclePoll(digest, store, feedUrl, w)
    case None => store
    case Some(p) =>
      match CyclePick(digest, store, feedUrl, w)
      case None => p.store
      case Some(h) => MarkPosted(p.store, h)
  }

  /** How the cycle ends: the completion is asked only for a pick, and the send only for a completion. */
  function CycleOutcomeOf(digest: string -> string, store: SeenPosts, feedUrl: string, w: World): CycleOutcome {
    match CyclePoll(digest, store, feedUrl, w)
    case None => FetchFailed(Retried(w.fetch).outcome.error)
    case Some(p) =>
      var polled := Selected(digest, p);
      if polled.content == "" then NothingNew
      else
        var t := Retried(w.transform(polled.content));
        if t.outcome.Err? then TransformFailed(t.outcome.error)
        else if w.publish(t.outcome.value) then Published(t.outcome.value)
        else PublishFailed(t.outcome.value)
  }

  /**
   * One cycle changes seen_posts only by new unposted rows and by the mark of `pick`,
   * which was not stored before the cycle.
   */
  predicate OnlyMarked(store: SeenPosts, after: SeenPosts, pick: Option<Hash>) {
    && store.Keys <= after.Keys
    && (pick.Some? ==> pick.value !in store && pick.value in after && after[pick.value].wasPosted)
    && forall k :: k in after && pick != Some(k) ==>
         (k in store ==> after[k] == store[k]) && (k !in store ==> !after[k].wasPosted)
  }

  lemma CycleEffect(digest: string -> string, store: SeenPosts, feedUrl: string, w: World)
    ensures OnlyMarked(store, CycleStore(digest, store, feedUrl, w), CyclePick(digest, store, feedUrl, w))
  {
    if Retried(w.fetch).outcome.Ok? {
      var entries := Retried(w.fetch).outcome.value;
      var p := Pass(digest, store, feedUrl, entries, w.now);
      PassKeeps(digest, store, feedUrl, entries, w.now);
      PassUnseenRecorded(digest, store, feedUrl, entries, w.now);
      PassNewRecords(digest, store, feedUrl, entries, w.now);
      SelectedIsFirstUnseen(digest, store, feedUrl, entries, w.now);
      var after := CycleStore(digest, store, feedUrl, w);
      var pick := CyclePick(digest, store, feedUrl, w);
      assert after == if pick.None? then p.store else MarkPosted(p.store, pick.value);
      if pick.Some? {
        var i :| FirstUnseenAt(digest, store, entries, i) && Selected(digest, p) == Polled(Content(entries[i]), entries[i].link, PostHash(digest, entries[i]));
        assert pick.value !in store;
      }
      forall k | k in after && pick != Some(k) && k !in store ensures !after[k].wasPosted {
        var i :| 0 <= i < |p.unseen| && PostHash(digest, p.unseen[i]) == k;
        assert RecordedAsUnseen(digest, store, p, feedUrl, w.now, p.unseen[i]);
      }
    }
  }

  /** A cycle picks a post exactly when it goes on to ask for a completion. */
  lemma PickIffCompletionAsked(digest: string -> string, store: SeenPosts, feedUrl: string, w: World)
    ensures CyclePick(digest, store, feedUrl, w).Some? <==>
      CycleOutcomeOf(digest, store, feedUrl, w) !in {NothingNew} && !CycleOutcomeOf(digest, store, feedUrl, w).FetchFailed?
  {
  }

  /**
   * The row is marked before the completion is requested, so a post whose completion
   * fails three times is never sent and never retried by a later cycle.
   */
  lemma LostWhenTransformFails(digest: string -> string, store: SeenPosts, feedUrl: string, w: World)
    requires CycleOutcomeOf(digest, store, feedUrl, w).TransformFailed? || CycleOutcomeOf(digest, store, feedUrl, w).PublishFailed?
    ensures CyclePick(digest, store, feedUrl, w).Some?
    ensures var h := CyclePick(digest, store, feedUrl, w).value;
      h in CycleStore(digest, store, feedUrl, w) && CycleStore(digest, store, feedUrl, w)[h].wasPosted
  {
    CycleEffect(digest, store, feedUrl, w);
  }

  /** A cycle that finds nothing new leaves seen_posts exactly as it was. */
  lemma NothingNewChangesNothing(digest: string -> string, store: SeenPosts, feedUrl: string, w: World)
    requires CycleOutcomeOf(digest, store, feedUrl, w) == NothingNew
    ensures CycleStore(digest, store, feedUrl, w) == store
  {
    var entries := Retried(w.fetch).outcome.value;
    var p := Pass(digest, store, feedUrl, entries, w.now);
    SelectedIsFirstUnseen(digest, store, feedUrl, entries, w.now);
    PassKeeps(digest, store, feedUrl, entries, w.now);
    assert HashesOf(digest, entries) <= store.Keys;
    assert p.store.Keys == store.Keys;
  }

  /** One iteration of the `while True` body of monitor_feed (main.py:300-309), without the sleep. */
  method MonitorCycle(db: Db.Database, digest: string -> string, feedUrl: string, w: World)
    returns (outcome: CycleOutcome)
    modifies db
    ensures db.seenPosts == CycleStore(digest, old(db.seenPosts), feedUrl, w)
    ensures outcome == CycleOutcomeOf(digest, old(db.seenPosts), feedUrl, w)
    ensures db.activeFeeds == old(db.activeFeeds) && db.admins == old(db.admins)
  {
    var polled, _ := ParseRssFeed(db, digest, feedUrl, w.fetch, w.now);
    if polled.Err? {
      outcome := FetchFailed(polled.error);
      return;
    }
    if polled.value.content == "" {
      outcome := NothingNew;
      return;
    }
    db.MarkAsPosted(polled.value.hash);
    var completion, _ := RunWithRetry(w.transform(polled.value.content));
    if completion.Err? {
      outcome := TransformFailed(completion.error);
    } else if w.publish(completion.value) {
      outcome := Published(completion.value);
    } else {
      outcome := PublishFailed(completion.value);
    }
  }

  /** seen_posts after the cycles `ws`, one World per cycle, in order. */
  function Run(digest: string -> string, store: SeenPosts, feedUrl: string, ws: seq<World>): SeenPosts
    decreases |ws|
  {
    if ws == [] then store
    else CycleStore(digest, Run(digest, store, feedUrl, ws[..|ws| - 1]), feedUrl, ws[|ws| - 1])
  }

  /** How each of the cycles `ws` ends, in order. */
  function Outcomes(digest: string -> string, store: SeenPosts, feedUrl: string, ws: seq<World>): (r: seq<CycleOutcome>)
    ensures |r| == |ws|
    decreases |ws|
  {
    if ws == [] then []
    else
      var init := ws[..|ws| - 1];
      Outcomes(digest, store, feedUrl, init) + [CycleOutcomeOf(digest, Run(digest, store, feedUrl, init), feedUrl, ws[|ws| - 1])]
  }

  /** The hashes marked as posted by the cycles `ws`, in order. */
  function Picks(digest: string -> string, store: SeenPosts, feedUrl: string, ws: seq<World>): seq<Hash>
    decreases |ws|
  {
    if ws == [] then []
    else
      var init := ws[..|ws| - 1];
      var before := Run(digest, store, feedUrl, init);
      match CyclePick(digest, before, feedUrl, ws[|ws| - 1])
      case None => Picks(digest, store, feedUrl, init)
      case Some(h) => Picks(digest, store, feedUrl, init) + [h]
  }

  /**
   * The picks of a run so far: not stored when the run began, distinct, and marked as
   * posted; rows stored before the run are as they were.
   */
  predicate PostedOnce(store: SeenPosts, after: SeenPosts, picks: seq<Hash>) {
    && store.Keys <= after.Keys
    && (forall k :: k in store ==> after[k] == store[k])
    && (forall i, j :: 0 <= i < j < |picks| ==> picks[i] != picks[j])
    && (forall i :: 0 <= i < |picks| ==> picks[i] !in store && picks[i] in after && after[picks[i]].wasPosted)
    && (forall k :: k in after && k !in store && k !in picks ==> !after[k].wasPosted)
  }

  /**
   * However many cycles run and whatever the outside answers, each entry is posted at most
   * once: every mark is of a hash never marked before, and only marked hashes are posted.
   */
  lemma {:induction false} AtMostOnce(digest: string -> string, store: SeenPosts, feedUrl: string, ws: seq<World>)
    ensures PostedOnce(store, Run(digest, store, feedUrl, ws), Picks(digest, store, feedUrl, ws))
    decreases |ws|
  {
    if ws != [] {
      var init := ws[..|ws| - 1];
      var w := ws[|ws| - 1];
      AtMostOnce(digest, store, feedUrl, init);
      var before := Run(digest, store, feedUrl, init);
      var picks := Picks(digest, store, feedUrl, init);
      CycleEffect(digest, before, feedUrl, w);
      var after := CycleStore(digest, before, feedUrl, w);
      var pick := CyclePick(digest, before, feedUrl, w);
      assert Run(digest, store, feedUrl, ws) == after;
      if pick.Some? {
        var picks' := picks + [pick.value];
        assert Picks(digest, store, feedUrl, ws) == picks';
        forall i | 0 <= i < |picks| ensures picks[i] != pick.value && after[picks[i]] == before[picks[i]] {
        }
        assert PostedOnce(store, after, picks');
      } else {
        assert Picks(digest, store, feedUrl, ws) == picks;
      }
    }
  }

  /**
   * When cycle n of the run picks a hash, no earlier cycle stored it, and cycle n leaves
   * it stored and marked as posted.
   */
  predicate PickedFresh(digest: string -> string, store: SeenPosts, feedUrl: string, ws: seq<World>, n: int)
    requires 0 <= n < |ws|
  {
    var before := Run(digest, store, feedUrl, ws[..n]);
    var after := Run(digest, store, feedUrl, ws[..n + 1]);
    match CyclePick(digest, before, feedUrl, ws[n])
    case None => true
    case Some(h) => h !in before && h in after && after[h].wasPosted
  }

  /** Every cycle of a run picks only a hash that is new at that cycle. */
  lemma EachPickNewAtItsCycle(digest: string -> string, store: SeenPosts, feedUrl: string, ws: seq<World>)
    ensures forall n :: 0 <= n < |ws| ==> PickedFresh(digest, store, feedUrl, ws, n)
  {
    forall n | 0 <= n < |ws| ensures PickedFresh(digest, store, feedUrl, ws, n) {
      var before := Run(digest, store, feedUrl, ws[..n]);
      assert ws[..n + 1][..n] == ws[..n];
      assert Run(digest, store, feedUrl, ws[..n + 1]) == CycleStore(digest, before, feedUrl, ws[n]);
      CycleEffect(digest, before, feedUrl, ws[n]);
    }
  }

  /**
   * monitor_feed (main.py:297-311) run for |ws| cycles: the task never stops on an error,
   * and cycle i sees the store the cycles before it left.
   */
  method MonitorFeed(db: Db.Database, digest: string -> string, feedUrl: string, ws: seq<World>)
    returns (outcomes: seq<CycleOutcome>)
    modifies db
    ensures db.seenPosts == Run(digest, old(db.seenPosts), feedUrl, ws)
    ensures outcomes == Outcomes(digest, old(db.seenPosts), feedUrl, ws)
    ensures db.activeFeeds == old(db.activeFeeds) && db.admins == old(db.admins)
  {
    outcomes := [];
    var i := 0;
    while i < |ws|
      invariant 0 <= i <= |ws|
      invariant db.seenPosts == Run(digest, old(db.seenPosts), feedUrl, ws[..i])
      invariant outcomes == Outcomes(digest, old(db.seenPosts), feedUrl, ws[..i])
      invariant db.activeFeeds == old(db.activeFeeds) && db.admins == old(db.admins)
    {
      assert ws[..i + 1][..i] == ws[..i];
      var outcome := MonitorCycle(db, digest, feedUrl, ws[i]);
      outcomes := outcomes + [outcome];
      i := i + 1;
    }
    assert ws[..i] == ws;
  }
}
