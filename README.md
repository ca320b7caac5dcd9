# RSS-to-Telegram bot: a verified model of its bookkeeping

The bot watches RSS feeds and posts each new item, after an LLM rewrite, to a Telegram
channel. It keeps three sqlite tables:

- `seen_posts`: every item ever fetched, keyed by a hash of link and title, with a
  `was_posted` flag;
- `active_feeds`: the feeds to watch and their poll intervals;
- `admins`: the users who may command the bot.

In memory it also keeps `active_tasks`, one background task per watched feed. The model
covers the logic that stops an item from being posted twice, and the control state around
that logic:

- the Database class, with the tables as maps (`database.dfy`, `store.dfy`);
- one poll of a feed, `parse_rss_feed`. It records every unseen entry and returns the
  first one (`poller.dfy`, `feed.dfy`);
- the `monitor_feed` loop, cycle by cycle. The loop marks the picked item as posted before
  it asks the LLM for a rewrite and before it sends (`poller.dfy`);
- the tenacity policy of three attempts that wraps the fetch and the LLM call (`retry.dfy`);
- `/add_feed`, `/stop_feed` and startup acting on `active_tasks` and the registry
  (`supervisor.dfy`);
- `/add_admin`, `/remove_admin` and the two permission checks (`admin.dfy`);
- the debug preview and its yes/no/cancel dialogue (`confirmation.dfy`);
- `/get_seen_posts`: the query, the date or amount filter, the formatting, and the greedy
  packing of lines into Telegram messages of at most 4096 characters (`listing.dfy`);
- Python's string operations where the handlers depend on them: `strip`, `lower`, slicing
  and `str(n)` (`text.dfy`).

The outside world is passed in as parameters:

- SHA-256 is `digest`;
- feedparser is `fetch`, the answers of the fetch attempts;
- the LLM is `transform`, the answers of the completion attempts for a given input text;
- the Telegram send is `publish`;
- the clock is `now`;
- `int()`, `strptime` and the URL regex are `parseInt`, `parseDate` and `validUrl`;
- `random.choice` is `pick`;
- the timestamp rendering is `stamp`.

Command text is given already split into words.

Three behaviours of the code that the model keeps (the two bugs under "## Findings" are
modelled both as written and corrected, and the handler methods run the corrected halves):

- `/add_feed` does not reject an interval of zero or less.
- `/add_feed` writes the registry row even when the feed is already monitored.
- The amount filter is Python's `posts[:amount]`, where a negative amount drops rows from
  the end.

## Model

| member | source | states |
|---|---|---|
| Store.Insert | main.py:117-123 | INSERT OR IGNORE. The keys grow by exactly the new hash. Every existing record is unchanged. A new hash gets an unposted record with the given feed, url, title and time |
| Store.MarkPosted | main.py:125-130 | No key is added. Only the given hash's record changes, and only its flag, which becomes true |
| Store.InsertIdempotent | main.py:117-123 | A second insert of the same hash, with any other data, leaves the first record: one row per hash |
| Store.MarkPostedIdempotent | main.py:125-130 | A second mark is a no-op. Marking an unknown hash changes nothing |
| Store.InsertKeepsPostedFlag | main.py:98-130 | Re-inserting a posted hash does not reset its flag: was_posted only goes from false to true |
| Store.Intervals | main.py:154-158 | The url -> interval dict has exactly the registry's urls, each with its row's interval |
| Store.PutAdmin | main.py:161-167 | INSERT OR REPLACE of an admin. The stored role is a super admin exactly when the flag is true. Other admins are unchanged |
| Feed.PostHash | main.py:219-222 | generate_post_hash: the digest of link + title with no separator; its properties are the two lemmas below |
| Feed.ConcatenationCollides | main.py:219-222 | Entries whose link + title texts are equal get the same hash, whatever the digest |
| Feed.DistinctEntriesCollide | main.py:219-222 | Two different entries, link "a" with title "b" and link "ab" with no title, share a hash |
| Feed.Content | main.py:276 | The transform input begins with the entry's title |
| Retry.Retried | main.py:254-258 | At most three attempts. The run stops at the first success. The caller sees an error exactly when all three attempts fail, and it is the last attempt's error |
| Retry.RunWithRetry | main.py:279 | The retry loop computes exactly Retried. An error means three attempts were made |
| Retry.ExhaustedAfterThree | main.py:254-258 | A step that always fails is attempted three times, and the third error is surfaced |
| Db.Database.Open | main.py:86-115 | CREATE TABLE IF NOT EXISTS keeps the rows that are already there |
| Db.Database.AddSeenPost | main.py:117-123 | seen_posts becomes Insert(old). The other tables are unchanged |
| Db.Database.MarkAsPosted | main.py:125-130 | seen_posts becomes MarkPosted(old). The other tables are unchanged |
| Db.Database.IsPostSeen | main.py:132-137 | True exactly when the hash has a row |
| Db.Database.AddActiveFeed | main.py:139-145 | The url's registry row is replaced by the new interval and the current time. Nothing else changes |
| Db.Database.RemoveActiveFeed | main.py:147-152 | The url's row is deleted, and an absent url is no error. Nothing else changes |
| Db.Database.GetActiveFeeds | main.py:154-158 | The dict maps each registered url to its interval and has no other keys |
| Db.Database.AddAdmin | main.py:161-167 | The admins table becomes PutAdmin(old) |
| Db.Database.RemoveAdmin | main.py:169-174 | The user's row is deleted. Nothing else changes |
| Db.Database.IsAdmin | main.py:176-181 | True exactly when the user has a row |
| Db.Database.IsSuperAdminCheck | main.py:183-189 | True exactly when the user has a row whose stored is_sa is 1 |
| Db.Database.GetAllAdmins | main.py:191-201 | Lists every admin exactly once, with bool(is_sa) as the flag |
| Db.Database.SeenPostsOf | main.py:579-584 | The result is the feed's rows, each once, each equal to its stored record, newest first |
| Poller.Pass | main.py:265-270 | The parse loop over the entries, defined entry by entry through PassEntry; its properties are the Pass lemmas below |
| Poller.PassEntry | main.py:266-270 | One iteration: an entry whose hash is not stored is appended to the selection and inserted, so a later entry with that hash counts as seen |
| Poller.PassKeeps | main.py:265-270 | After a pass, the stored hashes are the old ones plus the hash of every entry. Every old record is untouched |
| Poller.PassUnseenRecorded | main.py:265-270 | Every selected entry is from the feed, was unseen before the pass, and now has an unposted record for this feed with its link and title |
| Poller.PassUnseenDistinct | main.py:265-270 | No two selected entries share a hash: a duplicate later in the feed is not selected again |
| Poller.PassNewRecords | main.py:265-270 | Every record the pass adds is the record of a selected entry |
| Poller.PassEmptyIff | main.py:265-273 | The pass selects nothing exactly when every entry's hash was already stored |
| Poller.PassFirst | main.py:265-277 | The first selected entry is the first entry, in feed order, that was unseen at the start |
| Poller.PassTwiceFindsNothing | main.py:265-273 | A second pass over the same entries selects nothing and stores nothing new |
| Poller.SelectedIsFirstUnseen | main.py:265-277 | The result is ("", "", "") exactly when no entry was unseen. Otherwise it is the content, link and hash of the first unseen entry, whose record is stored and unposted |
| Poller.ParseRssFeed | main.py:254-277 | A failed fetch, after three attempts, returns its error and leaves seen_posts alone. Otherwise seen_posts and the result are those of one pass over the fetched entries |
| Poller.CycleStore | main.py:300-304 | seen_posts after one cycle: the pass's inserts, then the mark of the picked hash; a failed fetch leaves it alone |
| Poller.CycleOutcomeOf | main.py:300-309 | How one cycle ends: fetch failure, nothing new, completion failure after three attempts, send failure, or the published text; every exception is caught |
| Poller.CycleEffect | main.py:297-311 | One cycle only adds unposted rows and marks the pick. The pick was not stored before the cycle |
| Poller.PickIffCompletionAsked | main.py:303-305 | A cycle picks, and marks, a post exactly when it goes on to ask for a completion |
| Poller.LostWhenTransformFails | main.py:303-307 | When the completion or the send fails, the pick is already marked as posted, so no later cycle retries it |
| Poller.NothingNewChangesNothing | main.py:301-303 | A cycle that finds nothing new leaves seen_posts unchanged |
| Poller.MonitorCycle | main.py:300-309 | One loop iteration. seen_posts and the outcome are exactly CycleStore and CycleOutcomeOf. Every failure ends the cycle and never the loop |
| Poller.AtMostOnce | main.py:297-311 | Over any number of cycles and any answers from the outside: no marked hash was stored when the run began, no hash is marked twice, only marked rows among the new ones are flagged posted, and rows stored before the run stay as they were |
| Poller.EachPickNewAtItsCycle | main.py:297-311 | The hash each cycle picks was stored by no earlier cycle, and that cycle leaves it stored and marked as posted |
| Poller.MonitorFeed | main.py:297-311 | Runs the cycles in order, each on the store the last one left. Its results are Run and Outcomes |
| Supervisor.AddArgs | main.py:391-392 | The command parses exactly when it has three words and the third is an integer |
| Supervisor.StartupTasks | main.py:759-761 | One task per registry row, with the row's interval, over the tasks already there |
| Supervisor.AddFeedStep | main.py:390-407 | add_feed_handler on the registry and the tasks; its properties are AddRejects, AddAccepts and ReAddKeepsRunningInterval |
| Supervisor.StopFeedStep | main.py:413-423 | stop_feed_handler on both maps; its properties are StopSpec and StopKeepsSynced |
| Supervisor.AddRejects | main.py:391-396 | A malformed command or an invalid URL is rejected, and only then. It changes neither the registry nor the tasks |
| Supervisor.AddAccepts | main.py:398-404 | An accepted add always writes the registry row. A url without a task gets a new task with the given interval. A url with a task keeps that task |
| Supervisor.ReAddKeepsRunningInterval | main.py:398-404 | Re-adding with a new interval changes the registry but not the running task's interval |
| Supervisor.StopSpec | main.py:414-421 | A stop succeeds exactly for a url with a task and removes it from both maps. Otherwise nothing changes, and "not found" is the reply exactly when the command was well formed |
| Supervisor.AddKeepsSynced | main.py:398-401 | When every task has a registry row and every row a task, an add keeps it so |
| Supervisor.StopKeepsSynced | main.py:415-418 | A stop keeps tasks and registry in step |
| Supervisor.StartupSyncs | main.py:756-761 | Startup from no tasks gives exactly one task per registry row, with the row's interval |
| Supervisor.AddThenStop | main.py:386-423 | Adding a new feed and then stopping it leaves no task and no registry row for it |
| Supervisor.Bot.constructor | main.py:206 | The supervisor starts with no tasks |
| Supervisor.Bot.AddFeed | main.py:386-407 | The registry and the tasks change as AddFeedStep says. seen_posts and admins are untouched |
| Supervisor.Bot.StopFeed | main.py:409-423 | The registry and the tasks change as StopFeedStep says. seen_posts and admins are untouched |
| Supervisor.Bot.OnStartup | main.py:756-761 | The tasks become StartupTasks over the registry |
| AdminCommands.PyBool | main.py:344 | Python's bool on a str is true exactly for a non-empty string |
| AdminCommands.Flag | main.py:344 | The corrected flag decodes exactly the integers: non-zero means super admin |
| AdminCommands.AddAdminAsWritten | main.py:341-348 | add_admin_handler as written, with bool(is_sa) as the flag; AsWrittenZeroGrantsSuperAdmin is its property |
| AdminCommands.AddAdminStep | main.py:341-348 | add_admin_handler with the corrected integer flag; AddAdminSpec and ZeroAddsPlainAdmin are its properties |
| AdminCommands.AsWrittenZeroGrantsSuperAdmin | main.py:342-345 | As written, `/add_admin <id> 0` stores a super admin who then passes super_admin_only |
| AdminCommands.ZeroAddsPlainAdmin | main.py:342-345 | With the corrected flag, `/add_admin <id> 0` adds a user who passes admin_only but not super_admin_only |
| AdminCommands.AddAdminSpec | main.py:341-348 | The command fails exactly when it is malformed, and a failure changes nothing. A success adds or replaces only that user. The user is a super admin exactly when the flag is non-zero |
| AdminCommands.RemoveAdminStep | main.py:354-360 | The command fails exactly when it is malformed, and then changes nothing. A success deletes exactly that user |
| AdminCommands.RemovedLosesAccess | main.py:225-243 | A removed user passes admin_only or super_admin_only only if it is the configured id |
| AdminCommands.AddAdminHandler | main.py:337-348 | The corrected handler: the admins table and the reply are those of AddAdminStep. The other tables are untouched |
| AdminCommands.RemoveAdminHandler | main.py:350-360 | The admins table and the reply are those of RemoveAdminStep. The other tables are untouched |
| Confirmation.ConfirmStep | main.py:672-697 | handle_confirmation: the next state, the reply and the texts sent; the completion is asked of the stored content; its properties are the three lemmas below |
| Confirmation.YesWithContentFinishes | main.py:674-692 | A yes with stored content returns to Idle. It sends at most one text: the completion of that content, exactly when the completion and the send succeed |
| Confirmation.NoDeclines | main.py:686-692 | A no sends nothing and returns to Idle |
| Confirmation.OtherKeepsWaiting | main.py:674-690 | Other text, or a yes with no stored content, sends nothing and keeps the chat waiting with its content |
| Confirmation.TokensIgnoreCase | main.py:674-686 | Examples: YES, Y, Да, ДА, No and НЕТ are tokens; "yes please" and "/cancel" are not |
| Confirmation.YesTokensSpelled | main.py:674-675 | For every text: it is a yes-token exactly when it spells y, yes or да with each letter in either case |
| Confirmation.NoTokensSpelled | main.py:674-686 | For every text: it is a no-token exactly when it spells n, no or нет with each letter in either case |
| Confirmation.CancelStep | main.py:699-707 | Cancel always ends in Idle. It replies exactly when there was a state |
| Confirmation.RouteAsWritten | main.py:670-707 | The handler order as registered: a waiting chat always goes to handle_confirmation |
| Confirmation.Route | main.py:699-707 | The corrected order: /cancel goes to cancel_handler from any state |
| Confirmation.AsWrittenCancelIsSwallowed | main.py:670-707 | As registered, /cancel in a waiting chat goes to handle_confirmation, which keeps the chat waiting |
| Confirmation.CancelClearsWaiting | main.py:699-707 | With the corrected order, /cancel ends any waiting dialogue, and every other message is routed as before |
| Confirmation.DebugPreview | main.py:533-539 | The preview text of one entry; PreviewShape states its shape |
| Confirmation.PreviewShape | main.py:533-539 | The preview holds the whole title, ends with the link, shows at most 500 characters of the description, and shows all of a short one |
| Confirmation.DebugStep | main.py:513-546 | A preview happens exactly when the command is well formed, the URL valid and the feed non-empty. It is the preview of one of the feed's entries, stored as the content. Every failure keeps the state |
| Confirmation.PreviewThenYes | main.py:541-692 | A preview that is confirmed ends the dialogue. It sends exactly the completion of that preview when the completion and the send succeed, and nothing otherwise |
| Confirmation.Session.constructor | main.py:670 | A chat starts with no state |
| Confirmation.Session.DebugSendToTarget | main.py:513-553 | The chat's state and the reply are those of DebugStep. seen_posts is outside what it may change |
| Confirmation.Session.HandleConfirmation | main.py:670-697 | The state and result are those of ConfirmStep on the stored content |
| Confirmation.Session.Cancel | main.py:699-707 | The state and reply are those of CancelStep |
| Confirmation.Session.Receive | main.py:670-707 | The corrected dispatch: each message goes to the handler that Route picks, and the state changes as that handler says |
| Listing.ParseParam | main.py:565-576 | A date is tried first. Then an integer. Otherwise the parameter is invalid |
| Listing.OnDay | main.py:597-600 | The day filter, row by row; OnDaySpec states what it keeps |
| Listing.OnDaySpec | main.py:591-600 | The day filter keeps exactly the rows stamped in [day, day + 1 day), in their original order |
| Listing.SubsequenceKeepsOrder | main.py:591-600 | A selection in order from a newest-first listing is newest first, with distinct hashes |
| Listing.FilterByDay | main.py:596-600 | The loop computes OnDay |
| Listing.PyPrefix | main.py:603 | posts[:amount]: the first amount rows, or all of them. A negative amount drops rows from the end |
| Listing.AmountKeepsNewest | main.py:603 | On a newest-first listing, no dropped row is newer than a kept one |
| Listing.FilteredIsShorter | main.py:591-603 | Both filters only select rows |
| Listing.FormatPost | main.py:612-619 | format_post: one post's five lines, never empty; FormatPostStartsWithIndex states its start |
| Listing.FormatPostStartsWithIndex | main.py:612-619 | Each formatted post starts with its number and a dot |
| Listing.Lines | main.py:624-627 | Line i is post i formatted with number i + 1 |
| Listing.Pack | main.py:621-636 | The greedy packing of the formatted posts into groups, line by line through PackLine; its properties are the Pack lemmas below |
| Listing.PackLine | main.py:629-636 | One iteration: close the current group and open a new one when the line does not fit, else append the line |
| Listing.PackCovers | main.py:621-636 | Every line lands in exactly one group, in order: the groups read back as the lines |
| Listing.PackWellPacked | main.py:621-636 | Every group fits in 4096 characters unless it is a single line that is too long. Only the first group can be empty, and only when the first line alone is too long |
| Listing.PackGreedy | main.py:629-636 | Each closed group was closed because the next line did not fit after it |
| Listing.ChunkPosts | main.py:621-636 | The loop flushes the texts of Pack's closed groups and ends with the text of its open group |
| Listing.PackFirstEmpty | main.py:629-633 | When the first post alone exceeds 4096 characters, the first flushed part is the empty text |
| Listing.LastGroupNonEmpty | main.py:638-641 | The final chunk is non-empty whenever there was a post |
| Listing.PartReplies | main.py:630-631 | The two replies of each flushed part: two per part; PartRepliesAt states each one |
| Listing.PartRepliesAt | main.py:630-631 | Flushed part i is announced as number i + 1 of the estimate, followed by its stripped text |
| Listing.PartTotalCanUndercount | main.py:630 | The estimated total counts posts and not parts. With fewer than 40 posts, the second part is announced as "Part 2/1" |
| Listing.ListingReplies | main.py:586-641 | The replies after the query: no posts, no posts after the filter, or the flushed parts and the final part; ListingEndsWithFinalPart states how they end |
| Listing.ListingEndsWithFinalPart | main.py:637-641 | A non-empty selection ends with the final part header, numbered one past the flushed parts, then the last stripped text |
| Listing.GetSeenPosts | main.py:555-644 | A malformed command or parameter gets its error reply. Otherwise the query result is the feed's newest-first listing, and the replies are those of ListingReplies on it |
| Text.Strip | main.py:631 | str.strip: a contiguous piece of the text, with no whitespace at either end of it and only whitespace before and after it; an empty result means the text was all whitespace |
| Text.StripKeepsNonSpace | main.py:639-641 | Stripping a text with a non-space character leaves it non-empty |
| Text.NatToStringRoundTrip | main.py:614 | str(n) reads back as n |

## Left out

- Telegram, the LLM client and feedparser are parameters; their own failure modes are only "error" or "ok".
- asyncio: task creation, `cancel()` and `asyncio.sleep(interval)` are not modelled. A task is a token holding its interval, and `monitor_feed` is modelled as a finite run of cycles.
- sqlite: connections, transactions and SQL are replaced by maps. A database error inside a handler is not modelled.
- SHA-256 is an arbitrary function `digest`; nothing assumes it is injective.
- The URL regex of `_test_url`, `int()`, `datetime.strptime` and `message.text.split()` are parameters or given words.
- The `timedelta(days=1)` window is modelled as 86400 seconds on integer timestamps, and the parsing of `created_at` strings is left out.
- `random.choice` is an index `pick` reduced modulo the number of entries.
- The 10-second wait between retries and tenacity's wrapping of the final error in a RetryError are not modelled.
- Poller.ParseRssFeed: the retry re-runs the whole of `parse_rss_feed`, but the model retries only the fetch. The two agree because nothing in the loop raises once the feed is parsed, apart from missing entry attributes, which are not modelled.
- Feed entries always have a title, link and description; the `entry.get` defaults of the debug preview are not modelled.
- One pass uses one timestamp for all the rows it inserts.
- Telegram rejecting an empty or over-long message is not modelled. The empty first part that Listing.PackFirstEmpty exhibits would be such a rejection, and the reply would become an error message.
- The mention check of the `/cancel` filter: any `/cancel@name`, an empty name included, counts.
- `set_prompt`, `send_seen_to_target`, `debug_get_feed`, `/start`, `/help` and logging are not modelled.
- The text formatting of the `/get_admins` and `/get_active_feeds` replies is not modelled; only the underlying queries are.
- The permission decorators are modelled as the predicates MayAdmin and MaySuperAdmin, used in lemmas. They are not wrapped around each handler method.
- Db.Database.GetAllAdmins does not fix the table's row order.
- Db.Database.SeenPostsOf does not fix the order of rows with equal `created_at`.
- AdminCommands.AddAdminHandler: runs the corrected flag of the Findings table, not `bool(is_sa)` at main.py:344, so `/add_admin 42 0` stores a plain admin and `/add_admin 42 x` fails, where the code stores a super admin for both; the code's behaviour is AdminCommands.AddAdminAsWritten.
- Confirmation.Session.Receive: dispatches in the corrected order of Confirmation.Route, so `/cancel` ends a waiting dialogue, where the code's registration order keeps it waiting; the code's order is Confirmation.RouteAsWritten.
- Confirmation.Session.HandleConfirmation models a failed send as a reply with a fixed error text in place of the exception's message.

## Findings

| source | as written | input that shows it | evidently intended | confidence | as-written member | corrected member |
|---|---|---|---|---|---|---|
| main.py:670-707 | handle_confirmation accepts every message in the waiting state, and it is registered before cancel_handler; aiogram 2 tries handlers in that order | `/debug_send_to_target <url>`, then `/cancel`: the reply asks for yes or no, and the chat keeps waiting | `/cancel` ends the dialogue from any state | medium, not executed | Confirmation.RouteAsWritten, Confirmation.AsWrittenCancelIsSwallowed | Confirmation.Route, Confirmation.CancelClearsWaiting |
| main.py:344 | `bool(is_sa)` on the word from `split()`, which is never empty, so it is always true | `/add_admin 42 0` stores user 42 with is_sa = 1, a super admin | `0` adds a plain admin and a non-zero integer a super admin | high, not executed | AdminCommands.AddAdminAsWritten, AdminCommands.AsWrittenZeroGrantsSuperAdmin | AdminCommands.AddAdminStep, AdminCommands.ZeroAddsPlainAdmin, AdminCommands.AddAdminSpec |
