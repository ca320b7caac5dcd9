/**
 * The seen-posts listing of /get_seen_posts (main.py:555-644): the date or amount filter
 * over the newest-first rows, the line each row is formatted to, and the greedy packing of
 * those lines into messages of at most 4096 characters.
 */
module Listing {
  import opened Wrappers
  import opened Store
  import opened Text
  import Db

  const SecondsPerDay: int := 86400

  /** Telegram's message limit as main.py:610 states it. */
  const ChunkSize: nat := 4096

  /** The second word: a day (its midnight) if strptime accepts it, else an amount if int() does. */
  datatype Param = ByDate(dayStart: Timestamp) | ByAmount(amount: int)

  function ParseParam(param: string, parseDate: string -> Option<Timestamp>, parseInt: string -> Option<int>): (r: Option<Param>)
    ensures parseDate(param).Some? ==> r == Some(ByDate(parseDate(param).value))
    ensures parseDate(param).None? ==> (r.Some? <==> parseInt(param).Some?)
    ensures parseDate(param).None? && r.Some? ==> r == Some(ByAmount(parseInt(param).value))
  {
    match parseDate(param)
    case Some(d) => Some(ByDate(d))
    case None =>
      match parseInt(param)
      case Some(n) => Some(ByAmount(n))
      case None => None
  }

  /** `start_date <= post_date < end_date` with end_date one day later (main.py:594-600). */
  predicate InDay(dayStart: Timestamp, t: Timestamp) {
    dayStart <= t < dayStart + SecondsPerDay
  }

  /** The rows that fall on the day, in their original order. */
  function OnDay(rows: seq<Db.Row>, dayStart: Timestamp): seq<Db.Row>
    decreases |rows|
  {
    if rows == [] then []
    else
      var init := OnDay(rows[..|rows| - 1], dayStart);
      if InDay(dayStart, rows[|rows| - 1].createdAt) then init + [rows[|rows| - 1]] else init
  }

  /** `rows` appears in `all` in the same order: kept[k] is all[idx[k]] for increasing idx. */
  predicate Subsequence(kept: seq<Db.Row>, all: seq<Db.Row>, idx: seq<int>) {
    && |idx| == |kept|
    && (forall k :: 0 <= k < |idx| ==> 0 <= idx[k] < |all| && kept[k] == all[idx[k]])
    && (forall k, l :: 0 <= k < l < |idx| ==> idx[k] < idx[l])
  }

  /**
   * The day filter keeps exactly the rows with a timestamp in [day, day + 1 day), in
   * their original order, so a newest-first listing stays newest first.
   */
  lemma {:induction false} OnDaySpec(rows: seq<Db.Row>, dayStart: Timestamp)
    ensures forall r :: r in OnDay(rows, dayStart) <==> r in rows && InDay(dayStart, r.createdAt)
    ensures exists idx :: Subsequence(OnDay(rows, dayStart), rows, idx)
    decreases |rows|
  {
    if rows != [] {
      var init := rows[..|rows| - 1];
      var last := rows[|rows| - 1];
      assert rows == init + [last];
      OnDaySpec(init, dayStart);
      var idx: seq<int> :| Subsequence(OnDay(init, dayStart), init, idx);
      if InDay(dayStart, last.createdAt) {
        var idx' := idx + [|rows| - 1];
        assert OnDay(rows, dayStart) == OnDay(init, dayStart) + [last];
        assert Subsequence(OnDay(rows, dayStart), rows, idx');
      } else {
        assert OnDay(rows, dayStart) == OnDay(init, dayStart);
        assert Subsequence(OnDay(rows, dayStart), rows, idx);
      }
    } else {
      assert Subsequence(OnDay(rows, dayStart), rows, []);
    }
  }

  /** A subsequence of a newest-first listing with distinct hashes is again one. */
  lemma SubsequenceKeepsOrder(kept: seq<Db.Row>, all: seq<Db.Row>, idx: seq<int>)
    requires Subsequence(kept, all, idx)
    requires Db.NewestFirst(all) && Db.DistinctHashes(all)
    ensures Db.NewestFirst(kept) && Db.DistinctHashes(kept)
  {
    forall k, l | 0 <= k < l < |kept| ensures kept[k].createdAt >= kept[l].createdAt && kept[k].hash != kept[l].hash {
      assert idx[k] < idx[l];
    }
  }

  /** The loop of main.py:597-600. */
  method FilterByDay(rows: seq<Db.Row>, dayStart: Timestamp) returns (kept: seq<Db.Row>)
    ensures kept == OnDay(rows, dayStart)
  {
    kept := [];
    var i := 0;
    while i < |rows|
      invariant 0 <= i <= |rows|
      invariant kept == OnDay(rows[..i], dayStart)
    {
      assert rows[..i + 1][..i] == rows[..i];
      if InDay(dayStart, rows[i].createdAt) {
        kept := kept + [rows[i]];
      }
      i := i + 1;
    }
    assert rows[..i] == rows;
  }

  /** Python's rows[:amount]; a negative amount drops that many rows from the end (main.py:603). */
  function PyPrefix(rows: seq<Db.Row>, amount: int): (r: seq<Db.Row>)
    ensures |r| <= |rows| && r == rows[..|r|]
    ensures amount >= 0 ==> |r| == if amount <= |rows| then amount else |rows|
    ensures amount < 0 ==> |r| == if |rows| + amount >= 0 then |rows| + amount else 0
  {
    if amount >= 0 then Take(rows, amount)
    else if |rows| + amount >= 0 then rows[..|rows| + amount]
    else []
  }

  /** On a newest-first listing the amount filter keeps the newest rows: none dropped is newer than one kept. */
  lemma AmountKeepsNewest(rows: seq<Db.Row>, amount: int)
    requires Db.NewestFirst(rows)
    ensures var kept := PyPrefix(rows, amount);
      forall i, j :: 0 <= i < |kept| <= j < |rows| ==> kept[i].createdAt >= rows[j].createdAt
  {
  }

  function Filtered(rows: seq<Db.Row>, p: Param): seq<Db.Row> {
    match p
    case ByDate(d) => OnDay(rows, d)
    case ByAmount(n) => PyPrefix(rows, n)
  }

  /** format_post (main.py:612-619); `stamp` renders created_at as sqlite stores it. */
  function FormatPost(idx: nat, row: Db.Row, stamp: Timestamp -> string): (line: string)
    ensures |line| > 0
  {
    NatToString(idx) + ". \U{1F194} Hash: " + row.hash + "\n"
    + "   \U{1F517} URL: " + row.url + "\n"
    + "   \U{1F4DD} Title: " + row.title + "\n"
    + "   \U{1F4E4} Posted: " + (if row.wasPosted then "\U{2705}" else "\U{274C}") + "\n"
    + "   \U{1F552} Created at: " + stamp(row.createdAt) + "\n\n"
  }

  /** A formatted line starts with its 1-based position, so the listing reads 1., 2., 3., ... */
  lemma FormatPostStartsWithIndex(idx: nat, row: Db.Row, stamp: Timestamp -> string)
    ensures var s := NatToString(idx);
      |FormatPost(idx, row, stamp)| > |s| && FormatPost(idx, row, stamp)[..|s|] == s
      && FormatPost(idx, row, stamp)[|s|] == '.'
  {
    var s := NatToString(idx);
    var rest := ". \U{1F194} Hash: " + row.hash + "\n"
      + "   \U{1F517} URL: " + row.url + "\n"
      + "   \U{1F4DD} Title: " + row.title + "\n"
      + "   \U{1F4E4} Posted: " + (if row.wasPosted then "\U{2705}" else "\U{274C}") + "\n"
      + "   \U{1F552} Created at: " + stamp(row.createdAt) + "\n\n";
    assert FormatPost(idx, row, stamp) == s + rest;
  }

  /** The lines of the filtered rows, numbered from 1 as enumerate(filtered_posts, 1) does. */
  function Lines(rows: seq<Db.Row>, stamp: Timestamp -> string): (ls: seq<string>)
    ensures |ls| == |rows|
    ensures forall i :: 0 <= i < |rows| ==> ls[i] == FormatPost(i + 1, rows[i], stamp)
  {
    seq(|rows|, i requires 0 <= i < |rows| => FormatPost(i + 1, rows[i], stamp))
  }

  /** The text of a group of lines. */
  function Concat(ls: seq<string>): string
    decreases |ls|
  {
    if ls == [] then "" else Concat(ls[..|ls| - 1]) + ls[|ls| - 1]
  }

  /** The lines of consecutive groups, in order. */
  function Flatten(gs: seq<seq<string>>): seq<string>
    decreases |gs|
  {
    if gs == [] then [] else Flatten(gs[..|gs| - 1]) + gs[|gs| - 1]
  }

  /** The groups already sent and the group being filled (current_chunk). */
  datatype Packing = Packing(done: seq<seq<string>>, cur: seq<string>)

  /**
   * The packing of main.py:624-636: a line that would push the current text past 4096
   * characters closes the current group, even an empty one, and opens the next.
   */
  function Pack(lines: seq<string>): Packing
    decreases |lines|
  {
    if lines == [] then Packing([], [])
    else PackLine(Pack(lines[..|lines| - 1]), lines[|lines| - 1])
  }

  /** One iteration of the loop: close the current group if `f` does not fit, then add `f`. */
  function PackLine(p: Packing, f: string): Packing {
    if |Concat(p.cur)| + |f| > ChunkSize then Packing(p.done + [p.cur], [f])
    else Packing(p.done, p.cur + [f])
  }

  lemma FlattenSnoc(gs: seq<seq<string>>, g: seq<string>)
    ensures Flatten(gs + [g]) == Flatten(gs) + g
  {
    assert (gs + [g])[..|gs|] == gs;
  }

  lemma ConcatSnoc(ls: seq<string>, f: string)
    ensures Concat(ls + [f]) == Concat(ls) + f
  {
    assert (ls + [f])[..|ls|] == ls;
  }

  lemma PackLineCovers(p: Packing, f: string)
    ensures Flatten(PackLine(p, f).done) + PackLine(p, f).cur == Flatten(p.done) + p.cur + [f]
  {
    if |Concat(p.cur)| + |f| > ChunkSize {
      FlattenSnoc(p.done, p.cur);
    }
  }

  /** Every line is in exactly one group, in order: the groups read back as the lines. */
  lemma {:induction false} PackCovers(lines: seq<string>)
    ensures Flatten(Pack(lines).done) + Pack(lines).cur == lines
    decreases |lines|
  {
    if lines != [] {
      var init := lines[..|lines| - 1];
      var f := lines[|lines| - 1];
      PackCovers(init);
      PackLineCovers(Pack(init), f);
      assert lines == init + [f];
    }
  }

  /** A group fits in one message unless it is a single line that alone is too long. */
  predicate Fits(g: seq<string>) {
    |Concat(g)| <= ChunkSize || |g| == 1
  }

  /** Only the first group can be empty, and only when the first line alone is too long. */
  predicate WellPacked(lines: seq<string>, p: Packing) {
    && (forall i :: 0 <= i < |p.done| ==> Fits(p.done[i]))
    && Fits(p.cur)
    && (forall i :: 0 < i < |p.done| ==> p.done[i] != [])
    && (|p.done| > 0 ==> p.cur != [])
    && (lines != [] ==> p.cur != [])
    && (|p.done| > 0 && p.done[0] == [] ==> |lines| > 0 && |lines[0]| > ChunkSize)
  }

  lemma {:induction false} PackWellPacked(lines: seq<string>)
    ensures WellPacked(lines, Pack(lines))
    decreases |lines|
  {
    if lines != [] {
      var init := lines[..|lines| - 1];
      var f := lines[|lines| - 1];
      PackWellPacked(init);
      var p := Pack(init);
      if |Concat(p.cur)| + |f| > ChunkSize {
        var q := Packing(p.done + [p.cur], [f]);
        assert Pack(lines) == q;
        assert Concat([f]) == f by { ConcatSnoc([], f); }
        if |q.done| > 0 && q.done[0] == [] {
          if |p.done| == 0 {
            assert p.cur == [] && init == [];
            assert lines[0] == f;
          } else {
            assert p.done[0] == [];
            assert lines[0] == init[0];
          }
        }
        assert WellPacked(lines, q);
      } else {
        ConcatSnoc(p.cur, f);
        var q := Packing(p.done, p.cur + [f]);
        assert Pack(lines) == q;
        if |q.done| > 0 && q.done[0] == [] {
          assert lines[0] == init[0];
        }
        assert WellPacked(lines, q);
      }
    }
  }

  /** Group i was closed because the first line of group i + 1 did not fit after it. */
  predicate ClosedForNext(p: Packing, i: int)
    requires 0 <= i < |p.done|
  {
    var next := (p.done + [p.cur])[i + 1];
    next != [] && |Concat(p.done[i])| + |next[0]| > ChunkSize
  }

  /** The packing is greedy: each closed group was closed because the next line did not fit. */
  lemma {:induction false} PackGreedy(lines: seq<string>)
    ensures forall i :: 0 <= i < |Pack(lines).done| ==> ClosedForNext(Pack(lines), i)
    decreases |lines|
  {
    if lines != [] {
      var init := lines[..|lines| - 1];
      var f := lines[|lines| - 1];
      PackGreedy(init);
      PackWellPacked(init);
      var p := Pack(init);
      var q := Pack(lines);
      forall i | 0 <= i < |q.done| ensures ClosedForNext(q, i) {
        if |Concat(p.cur)| + |f| > ChunkSize {
          assert q.done == p.done + [p.cur] && q.cur == [f];
          if i == |p.done| {
            assert q.done[i] == p.cur && (q.done + [q.cur])[i + 1] == [f];
          } else {
            assert ClosedForNext(p, i);
            assert q.done[i] == p.done[i];
            assert (q.done + [q.cur])[i + 1] == (p.done + [p.cur])[i + 1];
          }
        } else {
          assert q.done == p.done && q.cur == p.cur + [f];
          assert ClosedForNext(p, i);
          if i + 1 < |p.done| {
            assert (q.done + [q.cur])[i + 1] == (p.done + [p.cur])[i + 1];
          } else {
            assert (p.done + [p.cur])[i + 1] == p.cur;
            assert (q.done + [q.cur])[i + 1][0] == p.cur[0];
          }
        }
      }
    }
  }

  function Texts(gs: seq<seq<string>>): (ts: seq<string>)
    ensures |ts| == |gs| && forall i :: 0 <= i < |gs| ==> ts[i] == Concat(gs[i])
  {
    seq(|gs|, i requires 0 <= i < |gs| => Concat(gs[i]))
  }

  lemma TextsSnoc(gs: seq<seq<string>>, g: seq<string>)
    ensures Texts(gs + [g]) == Texts(gs) + [Concat(g)]
  {
    assert forall i :: 0 <= i < |gs| ==> (gs + [g])[i] == gs[i];
  }

  /** The chunking loop (main.py:624-636): the texts it flushes and the current_chunk it ends with. */
  method ChunkPosts(lines: seq<string>) returns (flushed: seq<string>, current: string)
    ensures flushed == Texts(Pack(lines).done)
    ensures current == Concat(Pack(lines).cur)
  {
    flushed := [];
    current := "";
    var i := 0;
    while i < |lines|
      invariant 0 <= i <= |lines|
      invariant flushed == Texts(Pack(lines[..i]).done)
      invariant current == Concat(Pack(lines[..i]).cur)
    {
      ghost var p := Pack(lines[..i]);
      assert lines[..i + 1][..i] == lines[..i];
      assert Pack(lines[..i + 1]) == PackLine(p, lines[i]);
      if |current| + |lines[i]| > ChunkSize {
        TextsSnoc(p.done, p.cur);
        ConcatSnoc([], lines[i]);
        flushed := flushed + [current];
        current := lines[i];
      } else {
        ConcatSnoc(p.cur, lines[i]);
        current := current + lines[i];
      }
      i := i + 1;
    }
    assert lines[..i] == lines;
  }

  /** A line that alone is too long, when it comes first, makes the first part an empty text. */
  lemma {:induction false} PackFirstEmpty(lines: seq<string>)
    requires lines != [] && |lines[0]| > ChunkSize
    ensures |Pack(lines).done| > 0 && Pack(lines).done[0] == []
    decreases |lines|
  {
    var init := lines[..|lines| - 1];
    var f := lines[|lines| - 1];
    if init == [] {
      assert Pack(init) == Packing([], []);
      assert Pack(lines) == Packing([[]], [f]);
    } else {
      assert init[0] == lines[0];
      PackFirstEmpty(init);
      var p := Pack(init);
      assert Pack(lines).done == p.done || Pack(lines).done == p.done + [p.cur];
    }
  }

  /** The last group ends with the last line, so a non-empty last line leaves a non-empty current text. */
  lemma LastGroupNonEmpty(lines: seq<string>)
    requires lines != [] && lines[|lines| - 1] != ""
    ensures Concat(Pack(lines).cur) != ""
  {
    var init := lines[..|lines| - 1];
    var f := lines[|lines| - 1];
    var p := Pack(init);
    if |Concat(p.cur)| + |f| > ChunkSize {
      ConcatSnoc([], f);
    } else {
      ConcatSnoc(p.cur, f);
    }
  }

  /** What get_seen_posts_handler replies, message by message. */
  datatype ListReply =
    | ListUsage
    | InvalidParam
    | NoSeenPosts(feedUrl: string)
    | NoPostsFound(feedUrl: string, param: string, byDate: bool)
    | PartHeader(number: nat, total: nat)
    | FinalHeader(number: nat)
    | ChunkText(text: string)

  /** The number after the slash in "Part n/m": len(filtered_posts) // (4096 // 100) + 1. */
  function PartTotal(filtered: nat): nat {
    filtered / (ChunkSize / 100) + 1
  }

  /** The two replies of one flush: the part header, then the stripped text (main.py:630-631). */
  function PartPair(number: nat, total: nat, text: string): seq<ListReply> {
    [PartHeader(number, total), ChunkText(Strip(text))]
  }

  /** The replies of every flush inside the loop, in order. */
  function PartReplies(texts: seq<string>, total: nat): (r: seq<ListReply>)
    ensures |r| == 2 * |texts|
    decreases |texts|
  {
    if texts == [] then []
    else PartReplies(texts[..|texts| - 1], total) + PartPair(|texts|, total, texts[|texts| - 1])
  }

  /** Part i (from 0) is announced as number i + 1 of `total`, followed by its stripped text. */
  lemma {:induction false} PartRepliesAt(texts: seq<string>, total: nat)
    ensures forall i :: 0 <= i < |texts| ==>
      PartReplies(texts, total)[2 * i] == PartHeader(i + 1, total) && PartReplies(texts, total)[2 * i + 1] == ChunkText(Strip(texts[i]))
    decreases |texts|
  {
    if texts != [] {
      var n := |texts|;
      var init := texts[..n - 1];
      PartRepliesAt(init, total);
      var r0 := PartReplies(init, total);
      var r := PartReplies(texts, total);
      var last := PartPair(n, total, texts[n - 1]);
      assert r == r0 + last;
      forall i | 0 <= i < n
        ensures r[2 * i] == PartHeader(i + 1, total) && r[2 * i + 1] == ChunkText(Strip(texts[i]))
      {
        if i < n - 1 {
          assert r[2 * i] == r0[2 * i] && r[2 * i + 1] == r0[2 * i + 1];
          assert init[i] == texts[i];
        } else {
          assert 2 * i == |r0|;
          assert r[2 * i] == last[0] && r[2 * i + 1] == last[1];
        }
      }
    }
  }

  /** The replies after the query for one parsed parameter (main.py:586-641). */
  function ListingReplies(rows: seq<Db.Row>, p: Param, paramText: string, feedUrl: string, stamp: Timestamp -> string): seq<ListReply> {
    if rows == [] then [NoSeenPosts(feedUrl)]
    else
      var filtered := Filtered(rows, p);
      if filtered == [] then [NoPostsFound(feedUrl, paramText, p.ByDate?)]
      else
        var packed := Pack(Lines(filtered, stamp));
        var last := Concat(packed.cur);
        PartReplies(Texts(packed.done), PartTotal(|filtered|))
        + (if last != "" then [FinalHeader(|packed.done| + 1), ChunkText(Strip(last))] else [])
  }

  /** Both filters only select rows. */
  lemma FilteredIsShorter(rows: seq<Db.Row>, p: Param)
    ensures |Filtered(rows, p)| <= |rows|
  {
    match p
    case ByDate(d) =>
      OnDaySpec(rows, d);
      var idx: seq<int> :| Subsequence(OnDay(rows, d), rows, idx);
      SubsequenceShorter(OnDay(rows, d), rows, idx);
    case ByAmount(n) =>
  }

  lemma {:induction false} SubsequenceShorter(kept: seq<Db.Row>, all: seq<Db.Row>, idx: seq<int>)
    requires Subsequence(kept, all, idx)
    ensures |kept| <= |all|
    decreases |idx|
  {
    if idx != [] {
      var n := |idx| - 1;
      assert Subsequence(kept[..n], all[..idx[n]], idx[..n]);
      SubsequenceShorter(kept[..n], all[..idx[n]], idx[..n]);
    }
  }

  /**
   * A non-empty selection always ends with the final part, numbered one past the
   * flushed parts, after two replies per flushed part.
   */
  lemma ListingEndsWithFinalPart(rows: seq<Db.Row>, p: Param, paramText: string, feedUrl: string, stamp: Timestamp -> string)
    requires Filtered(rows, p) != []
    ensures var packed := Pack(Lines(Filtered(rows, p), stamp));
      var r := ListingReplies(rows, p, paramText, feedUrl, stamp);
      && |r| == 2 * |packed.done| + 2
      && r[|r| - 2] == FinalHeader(|packed.done| + 1)
      && r[|r| - 1] == ChunkText(Strip(Concat(packed.cur)))
  {
    FilteredIsShorter(rows, p);
    var filtered := Filtered(rows, p);
    var ls := Lines(filtered, stamp);
    assert ls[|ls| - 1] == FormatPost(|filtered|, filtered[|filtered| - 1], stamp);
    LastGroupNonEmpty(ls);
  }

  /**
   * The part total is an estimate from the number of posts, not the number of parts: with
   * fewer than 40 posts it is 1, so a second flushed part is announced as "Part 2/1".
   */
  lemma PartTotalCanUndercount(texts: seq<string>, filtered: nat)
    requires |texts| >= 2 && filtered < ChunkSize / 100
    ensures PartReplies(texts, PartTotal(filtered))[2] == PartHeader(2, 1)
  {
    assert ChunkSize / 100 == 40;
    assert filtered / 40 == 0;
    assert PartTotal(filtered) == 1;
    PartRepliesAt(texts, 1);
    assert PartReplies(texts, 1)[2 * 1] == PartHeader(1 + 1, 1);
  }

  /** get_seen_posts_handler (main.py:555-644); `rows` is the query result the replies are built from. */
  method GetSeenPosts(db: Db.Database, words: seq<string>, parseDate: string -> Option<Timestamp>,
                      parseInt: string -> Option<int>, stamp: Timestamp -> string)
    returns (rows: seq<Db.Row>, replies: seq<ListReply>)
    ensures |words| != 3 ==> replies == [ListUsage]
    ensures |words| == 3 && ParseParam(words[2], parseDate, parseInt).None? ==> replies == [InvalidParam]
    ensures |words| == 3 && ParseParam(words[2], parseDate, parseInt).Some? ==>
      && Db.IsListing(db.seenPosts, words[1], rows)
      && replies == ListingReplies(rows, ParseParam(words[2], parseDate, parseInt).value, words[2], words[1], stamp)
  {
    rows := [];
    if |words| != 3 {
      return rows, [ListUsage];
    }
    var feedUrl := words[1];
    var param := ParseParam(words[2], parseDate, parseInt);
    if param.None? {
      return rows, [InvalidParam];
    }
    rows := db.SeenPostsOf(feedUrl);
    if rows == [] {
      return rows, [NoSeenPosts(feedUrl)];
    }
    var filtered: seq<Db.Row>;
    match param.value {
      case ByDate(d) =>
        filtered := FilterByDay(rows, d);
      case ByAmount(n) =>
        filtered := PyPrefix(rows, n);
    }
    if filtered == [] {
      return rows, [NoPostsFound(feedUrl, words[2], param.value.ByDate?)];
    }
    var flushed, current := ChunkPosts(Lines(filtered, stamp));
    replies := PartReplies(flushed, PartTotal(|filtered|));
    if current != "" {
      replies := replies + [FinalHeader(|flushed| + 1), ChunkText(Strip(current))];
    }
  }
}
