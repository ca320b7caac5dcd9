/**
 * The debug preview and its confirmation dialogue: /debug_send_to_target (main.py:513-553)
 * stores a preview and waits; handle_confirmation (main.py:670-697) and cancel_handler
 * (main.py:699-707) answer the next message. The dispatcher's choice between them is
 * modelled as aiogram 2 makes it: handlers are tried in registration order, and a handler
 * registered without a state runs only when the chat has no state.
 */
module Confirmation {
  import opened Wrappers
  import opened Text
  import opened Feed
  import opened Retry

  /** The chat's FSM state together with the stored `content` of its data. */
  datatype FsmState = Idle | Waiting(content: Option<string>)

  /** Membership after message.text.lower() (main.py:674-675, 686); the repeated token in each list changes nothing. */
  predicate IsYes(text: string) {
    Lower(text) in {"yes", "y", "да"}
  }

  predicate IsNo(text: string) {
    Lower(text) in {"no", "n", "нет"}
  }

  /** The Command('cancel') filter on the first word: "/cancel", in any case, optionally with "@mention". */
  predicate IsCancel(words: seq<string>) {
    |words| > 0 && (Lower(words[0]) == "/cancel" || (|words[0]| >= 8 && Lower(words[0][..8]) == "/cancel@"))
  }

  datatype ConfirmReply = NoContent | SentToChannel | Declined | AskAgain | ConfirmError(error: string)

  /** The next state, the reply, and the texts that reached the target channel. */
  datatype ConfirmResult = ConfirmResult(next: FsmState, reply: ConfirmReply, sent: seq<string>)

  /**
   * handle_confirmation: a yes with content asks the completion of that content
   * (get_gpt_response, three attempts; transform(c) answers its attempts for input c) and sends
   * once; an exception on the way is reported and also finishes the state. A yes without
   * content returns before state.finish(), so the chat keeps waiting.
   */
  function ConfirmStep(content: Option<string>, text: string, transform: string -> nat -> Outcome<string>,
                       publish: string -> bool): ConfirmResult
  {
    if IsYes(text) then
      if content.None? || content.value == "" then ConfirmResult(Waiting(content), NoContent, [])
      else
        var t := Retried(transform(content.value));
        if t.outcome.Err? then ConfirmResult(Idle, ConfirmError(t.outcome.error), [])
        else if publish(t.outcome.value) then ConfirmResult(Idle, SentToChannel, [t.outcome.value])
        else ConfirmResult(Idle, ConfirmError("send failed"), [])
    else if IsNo(text) then ConfirmResult(Idle, Declined, [])
    else ConfirmResult(Waiting(content), AskAgain, [])
  }

  /** A yes with stored content ends the dialogue, having sent at most the completion of that content. */
  lemma YesWithContentFinishes(content: string, text: string, transform: string -> nat -> Outcome<string>, publish: string -> bool)
    requires IsYes(text) && content != ""
    ensures var r := ConfirmStep(Some(content), text, transform, publish);
      && r.next == Idle
      && |r.sent| <= 1
      && (r.sent != [] <==> Retried(transform(content)).outcome.Ok? && publish(Retried(transform(content)).outcome.value))
      && (r.sent != [] ==> r.sent == [Retried(transform(content)).outcome.value] && r.reply == SentToChannel)
  {
    assert !IsNo(text);
  }

  /** A no sends nothing and ends the dialogue. */
  lemma NoDeclines(content: Option<string>, text: string, transform: string -> nat -> Outcome<string>, publish: string -> bool)
    requires IsNo(text)
    ensures ConfirmStep(content, text, transform, publish) == ConfirmResult(Idle, Declined, [])
  {
    assert !IsYes(text) by {
      assert Lower(text) in {"no", "n", "нет"};
    }
  }

  /** Any other text, and a yes without content, send nothing and leave the chat waiting with its content. */
  lemma OtherKeepsWaiting(content: Option<string>, text: string, transform: string -> nat -> Outcome<string>, publish: string -> bool)
    requires (!IsYes(text) && !IsNo(text)) || (IsYes(text) && (content.None? || content == Some("")))
    ensures var r := ConfirmStep(content, text, transform, publish);
      r.next == Waiting(content) && r.sent == [] && r.reply in {AskAgain, NoContent}
  {
  }

  /** The tokens are matched after lower-casing, Cyrillic included. */
  lemma TokensIgnoreCase()
    ensures IsYes("YES") && IsYes("Y") && IsYes("Да") && IsYes("ДА")
    ensures IsNo("No") && IsNo("НЕТ")
    ensures !IsYes("yes please") && !IsNo("/cancel")
  {
    assert Lower("YES") == "yes";
    assert Lower("Y") == "y";
    assert Lower("Да") == "да";
    assert Lower("ДА") == "да";
    assert Lower("No") == "no";
    assert Lower("НЕТ") == "нет";
    assert |Lower("yes please")| == 10;
    assert Lower("/cancel") == "/cancel";
  }

  /** A yes-token, spelled out case by case: y, yes or да, each letter in either case. */
  predicate SpelledYes(s: string) {
    || (|s| == 1 && s[0] in {'y', 'Y'})
    || (|s| == 3 && s[0] in {'y', 'Y'} && s[1] in {'e', 'E'} && s[2] in {'s', 'S'})
    || (|s| == 2 && s[0] in {'\U{434}', '\U{414}'} && s[1] in {'\U{430}', '\U{410}'})
  }

  /** A no-token, spelled out case by case: n, no or нет, each letter in either case. */
  predicate SpelledNo(s: string) {
    || (|s| == 1 && s[0] in {'n', 'N'})
    || (|s| == 2 && s[0] in {'n', 'N'} && s[1] in {'o', 'O'})
    || (|s| == 3 && s[0] in {'\U{43D}', '\U{41D}'} && s[1] in {'\U{435}', '\U{415}'} && s[2] in {'\U{442}', '\U{422}'})
  }

  /** The lower-cased membership test accepts exactly the spelled-out yes-tokens, for every text. */
  lemma YesTokensSpelled(s: string)
    ensures IsYes(s) <==> SpelledYes(s)
  {
    LowerIs(s, "yes");
    LowerIs(s, "y");
    LowerIs(s, "\U{434}\U{430}");
  }

  /** The lower-cased membership test accepts exactly the spelled-out no-tokens, for every text. */
  lemma NoTokensSpelled(s: string)
    ensures IsNo(s) <==> SpelledNo(s)
  {
    LowerIs(s, "no");
    LowerIs(s, "n");
    LowerIs(s, "\U{43D}\U{435}\U{442}");
  }

  /** cancel_handler: nothing to do without a state; otherwise the state is finished and the user told. */
  function CancelStep(s: FsmState): (r: (FsmState, bool))
    ensures r.0 == Idle
    ensures r.1 <==> s.Waiting?
  {
    if s.Idle? then (Idle, false) else (Idle, true)
  }

  /** Which handler takes a message. */
  datatype Handler = ToConfirmation | ToCancel | ToCommands

  /**
   * As registered: handle_confirmation (any message in the waiting state) comes before
   * cancel_handler, so a waiting chat never reaches cancel_handler.
   */
  function RouteAsWritten(s: FsmState, words: seq<string>): Handler {
    if s.Waiting? then ToConfirmation else if IsCancel(words) then ToCancel else ToCommands
  }

  /** With cancel_handler registered first, as its state='*' filter intends. */
  function Route(s: FsmState, words: seq<string>): Handler {
    if IsCancel(words) then ToCancel else if s.Waiting? then ToConfirmation else ToCommands
  }

  /** As written, /cancel in a waiting chat is read as an answer that is neither yes nor no, and the chat keeps waiting. */
  lemma AsWrittenCancelIsSwallowed(content: Option<string>, transform: string -> nat -> Outcome<string>, publish: string -> bool)
    ensures RouteAsWritten(Waiting(content), ["/cancel"]) == ToConfirmation
    ensures ConfirmStep(content, "/cancel", transform, publish).next == Waiting(content)
  {
    assert Lower("/cancel") == "/cancel";
  }

  /** With the corrected order, /cancel ends any waiting dialogue; every other message is routed as before. */
  lemma CancelClearsWaiting(s: FsmState, words: seq<string>)
    ensures IsCancel(words) ==> Route(s, words) == ToCancel && CancelStep(s).0 == Idle
    ensures !IsCancel(words) ==> Route(s, words) == RouteAsWritten(s, words)
    ensures s.Idle? ==> Route(s, words) == RouteAsWritten(s, words)
  {
  }

  const PreviewLimit: nat := 500

  /** The preview text of main.py:533-539, with the description cut to its first 500 characters. */
  function DebugPreview(e: Entry): string {
    "\U{1F50D} Debug Feed Entry\n\n"
    + "\U{1F4CC} Title: " + e.title + "\n\n"
    + "\U{1F4DD} Description: " + Take(e.description, PreviewLimit) + "...\n\n"
    + "\U{1F517} Link: " + e.link
  }

  /** The preview shows the whole title and link, and at most 500 characters of the description. */
  lemma PreviewShape(e: Entry)
    ensures var p := DebugPreview(e);
      var header := "\U{1F50D} Debug Feed Entry\n\n" + "\U{1F4CC} Title: ";
      && OccursAt(e.title, p, |header|)
      && |p| >= |e.link| && p[|p| - |e.link|..] == e.link
      && |p| <= |header| + |e.title| + 2 + |"\U{1F4DD} Description: "| + PreviewLimit + 5 + |"\U{1F517} Link: "| + |e.link|
      && (|e.description| <= PreviewLimit ==> OccursAt(e.description, p, |header| + |e.title| + 2 + |"\U{1F4DD} Description: "|))
  {
    var p := DebugPreview(e);
    var header := "\U{1F50D} Debug Feed Entry\n\n" + "\U{1F4CC} Title: ";
    var d := "\U{1F4DD} Description: ";
    var rest := "\n\n" + d + Take(e.description, PreviewLimit) + "...\n\n" + "\U{1F517} Link: " + e.link;
    assert p == header + e.title + rest;
    assert p[|header|..|header| + |e.title|] == e.title;
    if |e.description| <= PreviewLimit {
      var k := |header| + |e.title| + 2 + |d|;
      var tail := "...\n\n" + "\U{1F517} Link: " + e.link;
      assert p == (header + e.title + "\n\n" + d) + e.description + tail;
      assert p[k..k + |e.description|] == e.description;
    }
  }

  datatype DebugReply = DebugUsage | DebugInvalidUrl | DebugFetchError(error: string) | NoEntries | Preview(content: string)

  /**
   * debug_send_to_target: after the checks, one entry (random.choice, here entries[pick mod n])
   * is previewed and stored, and the chat starts waiting; a failure keeps the state.
   * seen_posts is not part of this step: the preview marks nothing as seen.
   */
  function DebugStep(s: FsmState, words: seq<string>, validUrl: string -> bool,
                     fetched: Outcome<seq<Entry>>, pick: nat): (r: (FsmState, DebugReply))
    ensures r.1.Preview? <==> |words| == 2 && validUrl(words[1]) && fetched.Ok? && fetched.value != []
    ensures r.1.Preview? ==>
      && r.0 == Waiting(Some(r.1.content))
      && exists i :: 0 <= i < |fetched.value| && r.1.content == DebugPreview(fetched.value[i])
    ensures !r.1.Preview? ==> r.0 == s
  {
    if |words| != 2 then (s, DebugUsage)
    else if !validUrl(words[1]) then (s, DebugInvalidUrl)
    else if fetched.Err? then (s, DebugFetchError(fetched.error))
    else if fetched.value == [] then (s, NoEntries)
    else
      var content := DebugPreview(fetched.value[pick % |fetched.value|]);
      (Waiting(Some(content)), Preview(content))
  }

  /** A preview that is then confirmed sends the completion of that preview, once. */
  lemma PreviewThenYes(words: seq<string>, validUrl: string -> bool, fetched: Outcome<seq<Entry>>, pick: nat,
                       text: string, transform: string -> nat -> Outcome<string>, publish: string -> bool)
    requires DebugStep(Idle, words, validUrl, fetched, pick).1.Preview?
    requires IsYes(text)
    ensures var waiting := DebugStep(Idle, words, validUrl, fetched, pick).0;
      var preview := DebugStep(Idle, words, validUrl, fetched, pick).1.content;
      var r := ConfirmStep(waiting.content, text, transform, publish);
      && r.next == Idle
      && |r.sent| <= 1
      && (r.sent != [] <==> Retried(transform(preview)).outcome.Ok? && publish(Retried(transform(preview)).outcome.value))
      && (r.sent != [] ==> r.sent == [Retried(transform(preview)).outcome.value])
  {
    var content := DebugStep(Idle, words, validUrl, fetched, pick).1.content;
    var e := fetched.value[pick % |fetched.value|];
    assert content == DebugPreview(e);
    assert |content| > 0 by {
      assert content[0] == '\U{1F50D}';
    }
    YesWithContentFinishes(content, text, transform, publish);
  }

  /** What one incoming message does to the dialogue. */
  datatype Received = Confirmed(result: ConfirmResult) | CancelAnswered(replied: bool) | OtherCommand

  /** One chat's side of the dialogue. */
  class Session {
    var state: FsmState

    constructor ()
      ensures state == Idle
    {
      state := Idle;
    }

    /** debug_send_to_target_handler (main.py:513-553); the dispatcher reaches it only from Idle. */
    method DebugSendToTarget(words: seq<string>, validUrl: string -> bool, fetched: Outcome<seq<Entry>>, pick: nat)
      returns (reply: DebugReply)
      modifies this
      ensures (state, reply) == DebugStep(old(state), words, validUrl, fetched, pick)
    {
      if |words| != 2 {
        return DebugUsage;
      }
      if !validUrl(words[1]) {
        return DebugInvalidUrl;
      }
      if fetched.Err? {
        return DebugFetchError(fetched.error);
      }
      var entries := fetched.value;
      if entries == [] {
        return NoEntries;
      }
      var content := DebugPreview(entries[pick % |entries|]);
      state := Waiting(Some(content));
      reply := Preview(content);
    }

    /** handle_confirmation (main.py:670-697). */
    method HandleConfirmation(text: string, transform: string -> nat -> Outcome<string>, publish: string -> bool)
      returns (result: ConfirmResult)
      requires state.Waiting?
      modifies this
      ensures result == ConfirmStep(old(state).content, text, transform, publish)
      ensures state == result.next
    {
      var content := state.content;
      if IsYes(text) {
        if content.None? || content.value == "" {
          return ConfirmResult(state, NoContent, []);
        }
        var t, _ := RunWithRetry(transform(content.value));
        if t.Err? {
          result := ConfirmResult(Idle, ConfirmError(t.error), []);
        } else if publish(t.value) {
          result := ConfirmResult(Idle, SentToChannel, [t.value]);
        } else {
          result := ConfirmResult(Idle, ConfirmError("send failed"), []);
        }
      } else if IsNo(text) {
        result := ConfirmResult(Idle, Declined, []);
      } else {
        return ConfirmResult(state, AskAgain, []);
      }
      state := Idle;
    }

    /** cancel_handler (main.py:699-707). */
    method Cancel() returns (replied: bool)
      modifies this
      ensures (state, replied) == CancelStep(old(state))
    {
      if state.Idle? {
        return false;
      }
      state := Idle;
      replied := true;
    }

    /** One message of the dialogue, dispatched in the corrected order of Route (cancel_handler first); RouteAsWritten is the order as registered. */
    method Receive(words: seq<string>, text: string, transform: string -> nat -> Outcome<string>, publish: string -> bool)
      returns (r: Received)
      modifies this
      ensures Route(old(state), words) == ToConfirmation ==>
        r == Confirmed(ConfirmStep(old(state).content, text, transform, publish)) && state == r.result.next
      ensures Route(old(state), words) == ToCancel ==>
        r == CancelAnswered(old(state).Waiting?) && state == Idle
      ensures Route(old(state), words) == ToCommands ==> r == OtherCommand && state == old(state)
    {
      match Route(state, words)
      case ToCancel =>
        var replied := Cancel();
        r := CancelAnswered(replied);
      case ToConfirmation =>
        var result := HandleConfirmation(text, transform, publish);
        r := Confirmed(result);
      case ToCommands =>
        r := OtherCommand;
    }
  }
}
