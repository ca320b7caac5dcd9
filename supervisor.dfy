/**
 * The feed supervisor: the in-memory active_tasks map (main.py:206) kept beside the
 * active_feeds table, changed by /add_feed (main.py:386-407), /stop_feed (main.py:409-423)
 * and on_startup (main.py:756-761). A task is a token holding the interval it was started
 * with; the asyncio task it stands for is not modelled.
 */
module Supervisor {
  import opened Wrappers
  import opened Store
  import Db

  datatype Task = Task(interval: int)

  type Tasks = map<string, Task>

  datatype AddReply = AddUsage | InvalidUrl | Started(url: string) | AlreadyMonitored

  datatype StopReply = StopUsage | Stopped(url: string) | NotFound

  /** The registry (active_feeds) and the running tasks (active_tasks) together. */
  datatype Control = Control(feeds: Feeds, tasks: Tasks)

  datatype Step<R> = Step(control: Control, reply: R)

  /** Every running task has a registry row and every registry row a running task. */
  predicate Synced(c: Control) {
    c.tasks.Keys == c.feeds.Keys
  }

  /**
   * `_, url, interval = message.text.split()` then `int(interval)`: exactly three words
   * and an integer third word, or the ValueError that the handler reports as usage.
   */
  function AddArgs(words: seq<string>, parseInt: string -> Option<int>): (r: Option<(string, int)>)
    ensures r.Some? <==> |words| == 3 && parseInt(words[2]).Some?
    ensures r.Some? ==> r.value == (words[1], parseInt(words[2]).value)
  {
    if |words| == 3 && parseInt(words[2]).Some? then Some((words[1], parseInt(words[2]).value)) else None
  }

  /**
   * add_feed_handler: after the URL check the registry row is always written (insert or
   * replace), and a task is started only for a url without one.
   */
  function AddFeedStep(c: Control, words: seq<string>, validUrl: string -> bool,
                       parseInt: string -> Option<int>, now: Timestamp): Step<AddReply>
  {
    match AddArgs(words, parseInt)
    case None => Step(c, AddUsage)
    case Some((url, interval)) =>
      if !validUrl(url) then Step(c, InvalidUrl)
      else
        var feeds := c.feeds[url := FeedRow(interval, now)];
        if url !in c.tasks then Step(Control(feeds, c.tasks[url := Task(interval)]), Started(url))
        else Step(Control(feeds, c.tasks), AlreadyMonitored)
  }

  /** stop_feed_handler: a url with a task loses both its task and its registry row. */
  function StopFeedStep(c: Control, words: seq<string>): Step<StopReply> {
    if |words| != 2 then Step(c, StopUsage)
    else if words[1] in c.tasks then Step(Control(c.feeds - {words[1]}, c.tasks - {words[1]}), Stopped(words[1]))
    else Step(c, NotFound)
  }

  /** on_startup: a task per registry row, started with the row's interval, over the tasks already there. */
  function StartupTasks(tasks: Tasks, feeds: Feeds): (r: Tasks)
    ensures r.Keys == tasks.Keys + feeds.Keys
    ensures forall u :: u in feeds ==> r[u] == Task(feeds[u].interval)
    ensures forall u :: u in tasks && u !in feeds ==> r[u] == tasks[u]
  {
    tasks + map u | u in feeds :: Task(feeds[u].interval)
  }

  /** A malformed command or an invalid URL changes neither the registry nor the tasks. */
  lemma AddRejects(c: Control, words: seq<string>, validUrl: string -> bool,
                   parseInt: string -> Option<int>, now: Timestamp)
    ensures AddFeedStep(c, words, validUrl, parseInt, now).reply in {AddUsage, InvalidUrl} <==>
      !(|words| == 3 && parseInt(words[2]).Some? && validUrl(words[1]))
    ensures AddFeedStep(c, words, validUrl, parseInt, now).reply in {AddUsage, InvalidUrl} ==>
      AddFeedStep(c, words, validUrl, parseInt, now).control == c
  {
  }

  /**
   * An accepted add always writes the registry row, and the url then has exactly one task:
   * a new one with the given interval, or the one already running, which keeps its own
   * interval even when the registry now says otherwise.
   */
  lemma AddAccepts(c: Control, words: seq<string>, validUrl: string -> bool,
                   parseInt: string -> Option<int>, now: Timestamp)
    requires |words| == 3 && parseInt(words[2]).Some? && validUrl(words[1])
    ensures var s := AddFeedStep(c, words, validUrl, parseInt, now);
      var url := words[1];
      var interval := parseInt(words[2]).value;
      && s.control.feeds == c.feeds[url := FeedRow(interval, now)]
      && s.control.tasks.Keys == c.tasks.Keys + {url}
      && (forall u :: u in c.tasks && u != url ==> s.control.tasks[u] == c.tasks[u])
      && (url in c.tasks ==> s.reply == AlreadyMonitored && s.control.tasks[url] == c.tasks[url])
      && (url !in c.tasks ==> s.reply == Started(url) && s.control.tasks[url] == Task(interval))
  {
  }

  /** Re-adding a monitored url with a new interval leaves the running task on the old one. */
  lemma ReAddKeepsRunningInterval(c: Control, url: string, interval: int, validUrl: string -> bool,
                                  parseInt: string -> Option<int>, cmd: string, arg: string, now: Timestamp)
    requires url in c.tasks && validUrl(url) && parseInt(arg) == Some(interval)
    requires c.tasks[url].interval != interval
    ensures var s := AddFeedStep(c, [cmd, url, arg], validUrl, parseInt, now);
      s.control.feeds[url].interval == interval && s.control.tasks[url].interval != interval
  {
  }

  /** A stop succeeds exactly for a url with a task, and removes it from both maps and nothing else. */
  lemma StopSpec(c: Control, words: seq<string>)
    ensures var s := StopFeedStep(c, words);
      && (s.reply.Stopped? <==> |words| == 2 && words[1] in c.tasks)
      && (s.reply.Stopped? ==> s.reply.url == words[1] && s.control == Control(c.feeds - {words[1]}, c.tasks - {words[1]}))
      && (!s.reply.Stopped? ==> s.control == c)
      && (s.reply == NotFound <==> |words| == 2 && words[1] !in c.tasks)
  {
  }

  /** Every handler keeps the registry and the tasks in step. */
  lemma AddKeepsSynced(c: Control, words: seq<string>, validUrl: string -> bool,
                       parseInt: string -> Option<int>, now: Timestamp)
    requires Synced(c)
    ensures Synced(AddFeedStep(c, words, validUrl, parseInt, now).control)
  {
  }

  lemma StopKeepsSynced(c: Control, words: seq<string>)
    requires Synced(c)
    ensures Synced(StopFeedStep(c, words).control)
  {
  }

  /** Startup from no tasks gives one task per registry row, with the row's interval. */
  lemma StartupSyncs(feeds: Feeds)
    ensures Synced(Control(feeds, StartupTasks(map[], feeds)))
    ensures forall u :: u in feeds ==> StartupTasks(map[], feeds)[u].interval == feeds[u].interval
  {
  }

  /** Starting a feed and then stopping it leaves no task and no row for it. */
  lemma AddThenStop(c: Control, url: string, arg: string, validUrl: string -> bool,
                    parseInt: string -> Option<int>, cmd: string, stop: string, now: Timestamp)
    requires url !in c.tasks && validUrl(url) && parseInt(arg).Some?
    ensures var added := AddFeedStep(c, [cmd, url, arg], validUrl, parseInt, now);
      var stopped := StopFeedStep(added.control, [stop, url]);
      && added.reply == Started(url)
      && stopped.reply == Stopped(url)
      && stopped.control == Control(c.feeds - {url}, c.tasks)
  {
    var added := AddFeedStep(c, [cmd, url, arg], validUrl, parseInt, now);
    assert added.control.tasks - {url} == c.tasks;
    assert added.control.feeds - {url} == c.feeds - {url};
  }

  /** The bot's supervisor state: the database it shares and the tasks it runs. */
  class Bot {
    const db: Db.Database
    var activeTasks: Tasks

    constructor (db: Db.Database)
      ensures this.db == db && activeTasks == map[]
    {
      this.db := db;
      activeTasks := map[];
    }

    function Snapshot(): Control
      reads this, db
    {
      Control(db.activeFeeds, activeTasks)
    }

    /** add_feed_handler (main.py:386-407). */
    method AddFeed(words: seq<string>, validUrl: string -> bool, parseInt: string -> Option<int>, now: Timestamp)
      returns (reply: AddReply)
      modifies this, db
      ensures Snapshot() == AddFeedStep(old(Snapshot()), words, validUrl, parseInt, now).control
      ensures reply == AddFeedStep(old(Snapshot()), words, validUrl, parseInt, now).reply
      ensures db.seenPosts == old(db.seenPosts) && db.admins == old(db.admins)
    {
      if |words| != 3 {
        return AddUsage;
      }
      var interval := parseInt(words[2]);
      if interval.None? {
        return AddUsage;
      }
      var url := words[1];
      if !validUrl(url) {
        return InvalidUrl;
      }
      db.AddActiveFeed(url, interval.value, now);
      if url !in activeTasks {
        activeTasks := activeTasks[url := Task(interval.value)];
        reply := Started(url);
      } else {
        reply := AlreadyMonitored;
      }
    }

    /** stop_feed_handler (main.py:409-423); cancelling the task is dropping its token. */
    method StopFeed(words: seq<string>) returns (reply: StopReply)
      modifies this, db
      ensures Snapshot() == StopFeedStep(old(Snapshot()), words).control
      ensures reply == StopFeedStep(old(Snapshot()), words).reply
      ensures db.seenPosts == old(db.seenPosts) && db.admins == old(db.admins)
    {
      if |words| != 2 {
        return StopUsage;
      }
      var url := words[1];
      if url in activeTasks {
        activeTasks := activeTasks - {url};
        db.RemoveActiveFeed(url);
        reply := Stopped(url);
      } else {
        reply := NotFound;
      }
    }

    /** on_startup (main.py:756-761): one task per row of get_active_feeds, in any order. */
    method OnStartup()
      modifies this
      ensures activeTasks == StartupTasks(old(activeTasks), db.activeFeeds)
    {
      var feeds := db.GetActiveFeeds();
      var left := feeds.Keys;
      while left != {}
        invariant left <= feeds.Keys
        invariant activeTasks == old(activeTasks) + map u | u in feeds.Keys - left :: Task(feeds[u])
        decreases left
      {
        var url :| url in left;
        activeTasks := activeTasks[url := Task(feeds[url])];
        left := left - {url};
      }
      assert feeds.Keys - left == db.activeFeeds.Keys;
    }
  }
}
