/**
 * The bot's number-check state: the readiness flag driven by the chat
 * client's "ready" and "disconnected" events, the /checknumbers command
 * that is refused while the flag is down, and the message listeners that
 * every accepted /checknumbers command adds and that all stay registered.
 * In this model each incoming message is handed to every listener, and
 * each listener runs its own lookup batch and sends its own two replies.
 */
module Relay {
  import opened Normalization
  import opened Lookup
  import opened ReplyFormat
  import opened Sequences

  datatype Option<T> = None | Some(value: T)

  const NotReadyNotice: string := "\U{26A0}\U{FE0F} WhatsApp not ready yet."
  const NumbersPrompt: string := "Send numbers separated by newline or comma:"
  const CheckingNotice: string := "\U{1F50D} Checking WhatsApp status..."

  /** Whether a listener goes on with a message (main.js:90): only a text
      that is present and not empty does. */
  predicate IsTruthy(text: Option<string>) {
    text.Some? && text.value != ""
  }

  /** The numbers a listener queries for a message, in query order. */
  function Queried(text: Option<string>): seq<string> {
    if IsTruthy(text) then Normalize(text.value) else []
  }

  /** The messages one listener sends for an incoming message, where
      `outcomes[i]` answers the query about the i-th queried number. */
  function ListenerReplies(text: Option<string>, outcomes: seq<Outcome>): seq<string>
    requires |outcomes| == |Queried(text)|
  {
    if IsTruthy(text) then
      var numbers := Queried(text);
      [CheckingNotice, FormatReply(Found(numbers, outcomes), NotFound(numbers, outcomes))]
    else []
  }

  predicate BatchesFit(text: Option<string>, batches: seq<seq<Outcome>>) {
    forall k :: 0 <= k < |batches| ==> |batches[k]| == |Queried(text)|
  }

  /** Everything the listeners send for one message, listener by listener
      in registration order; `batches[k]` holds the answers to the queries
      of the k-th listener. */
  function Transcript(text: Option<string>, batches: seq<seq<Outcome>>): seq<string>
    requires BatchesFit(text, batches)
  {
    if batches == [] then []
    else
      var n := |batches| - 1;
      Transcript(text, batches[..n]) + ListenerReplies(text, batches[n])
  }

  /** One run of the `message` listener. */
  method RunListener(text: Option<string>, outcomes: seq<Outcome>) returns (replies: seq<string>)
    requires |outcomes| == |Queried(text)|
    ensures replies == ListenerReplies(text, outcomes)
  {
    if text.None? || text.value == "" {
      return [];
    }
    var numbers := Normalize(text.value);
    var found, notFound := CheckBatch(numbers, outcomes);
    replies := [CheckingNotice, FormatReply(found, notFound)];
  }

  class Bot {
    /** Whether the WhatsApp client is ready (set at main.js:51, cleared
        at main.js:57). */
    var ready: bool
    /** How many `message` listeners /checknumbers has registered. */
    var listeners: nat
    /** The replies the bot has sent, in order, all chats merged into
        one log. */
    var sent: seq<string>

    /** At start-up the flag is down and no listener is registered. */
    constructor ()
      ensures !ready && listeners == 0 && sent == []
    {
      ready := false;
      listeners := 0;
      sent := [];
    }

    /** The chat client's "ready" event. */
    method OnReady()
      modifies this
      ensures ready
      ensures listeners == old(listeners) && sent == old(sent)
    {
      ready := true;
    }

    /** The chat client's "disconnected" event; the restart of the client
        that follows is not part of this state. */
    method OnDisconnected()
      modifies this
      ensures !ready
      ensures listeners == old(listeners) && sent == old(sent)
    {
      ready := false;
    }

    /** The /checknumbers command: refused while the client is not ready,
        otherwise it prompts for numbers and registers one more listener,
        keeping all the earlier ones. */
    method CheckNumbers()
      modifies this
      ensures ready == old(ready)
      ensures old(ready) ==> listeners == old(listeners) + 1 && sent == old(sent) + [NumbersPrompt]
      ensures !old(ready) ==> listeners == old(listeners) && sent == old(sent) + [NotReadyNotice]
    {
      if !ready {
        sent := sent + [NotReadyNotice];
        return;
      }
      sent := sent + [NumbersPrompt];
      listeners := listeners + 1;
    }

    /** An incoming message that is not a command: every registered
        listener runs, whatever the readiness flag says now. */
    method OnMessage(text: Option<string>, batches: seq<seq<Outcome>>)
      requires |batches| == listeners && BatchesFit(text, batches)
      modifies this
      ensures sent == old(sent) + Transcript(text, batches)
      ensures ready == old(ready) && listeners == old(listeners)
    {
      ghost var before := sent;
      for k := 0 to |batches|
        invariant BatchesFit(text, batches[..k])
        invariant sent == before + Transcript(text, batches[..k])
        invariant ready == old(ready) && listeners == old(listeners)
      {
        var replies := RunListener(text, batches[k]);
        TranscriptStep(text, batches, k);
        Assoc(before, Transcript(text, batches[..k]), replies);
        sent := sent + replies;
      }
      assert batches[..|batches|] == batches;
    }
  }

  // ---------------------------------------------------------------------
  // Properties

  /** With k listeners a message yields k batches: the notice and the
      summary of the k-th listener are messages 2k and 2k + 1. */
  lemma {:induction false} TranscriptShape(text: Option<string>, batches: seq<seq<Outcome>>)
    requires BatchesFit(text, batches)
    ensures |Transcript(text, batches)| == if IsTruthy(text) then 2 * |batches| else 0
    ensures IsTruthy(text) ==> forall k :: 0 <= k < |batches| ==>
              Transcript(text, batches)[2 * k] == CheckingNotice &&
              Transcript(text, batches)[2 * k + 1]
                == FormatReply(Found(Queried(text), batches[k]), NotFound(Queried(text), batches[k]))
  {
    TranscriptLength(text, batches);
    if IsTruthy(text) {
      forall k | 0 <= k < |batches|
        ensures Transcript(text, batches)[2 * k] == CheckingNotice
        ensures Transcript(text, batches)[2 * k + 1]
                == FormatReply(Found(Queried(text), batches[k]), NotFound(Queried(text), batches[k]))
      {
        TranscriptAt(text, batches, k);
      }
    }
  }

  /** One more listener adds its replies at the end. */
  lemma TranscriptStep(text: Option<string>, batches: seq<seq<Outcome>>, k: nat)
    requires BatchesFit(text, batches) && k < |batches|
    ensures BatchesFit(text, batches[..k]) && BatchesFit(text, batches[..k + 1])
    ensures Transcript(text, batches[..k + 1])
         == Transcript(text, batches[..k]) + ListenerReplies(text, batches[k])
  {
    var prefix := batches[..k + 1];
    assert prefix[..k] == batches[..k];
    assert prefix[k] == batches[k];
  }

  lemma {:induction false} TranscriptLength(text: Option<string>, batches: seq<seq<Outcome>>)
    requires BatchesFit(text, batches)
    ensures |Transcript(text, batches)| == if IsTruthy(text) then 2 * |batches| else 0
    decreases |batches|
  {
    if batches != [] {
      var n := |batches| - 1;
      assert BatchesFit(text, batches[..n]);
      TranscriptLength(text, batches[..n]);
    }
  }

  /** The two messages of the k-th listener. */
  lemma {:induction false} TranscriptAt(text: Option<string>, batches: seq<seq<Outcome>>, k: nat)
    requires BatchesFit(text, batches) && IsTruthy(text) && k < |batches|
    ensures 2 * k + 1 < |Transcript(text, batches)|
    ensures Transcript(text, batches)[2 * k] == ListenerReplies(text, batches[k])[0]
    ensures Transcript(text, batches)[2 * k + 1] == ListenerReplies(text, batches[k])[1]
    decreases |batches|
  {
    var n := |batches| - 1;
    TranscriptLast(text, batches);
    var before := Transcript(text, batches[..n]);
    var last := ListenerReplies(text, batches[n]);
    if k < n {
      var replies := ListenerReplies(text, batches[k]);
      assert before[2 * k] == replies[0] && before[2 * k + 1] == replies[1] by {
        TranscriptAt(text, batches[..n], k);
        assert batches[..n][k] == batches[k];
      }
      assert (before + last)[2 * k] == before[2 * k] by {
        AppendIndexLeft(before, last, 2 * k);
      }
      assert (before + last)[2 * k + 1] == before[2 * k + 1] by {
        AppendIndexLeft(before, last, 2 * k + 1);
      }
    } else {
      assert (before + last)[2 * k] == last[0] by {
        AppendIndexRight(before, last, 0);
      }
      assert (before + last)[2 * k + 1] == last[1] by {
        AppendIndexRight(before, last, 1);
      }
    }
  }

  /** The last listener's replies come after those of all the others. */
  lemma TranscriptLast(text: Option<string>, batches: seq<seq<Outcome>>)
    requires BatchesFit(text, batches) && IsTruthy(text) && batches != []
    ensures BatchesFit(text, batches[..|batches| - 1])
    ensures Transcript(text, batches)
         == Transcript(text, batches[..|batches| - 1]) + ListenerReplies(text, batches[|batches| - 1])
    ensures |Transcript(text, batches[..|batches| - 1])| == 2 * (|batches| - 1)
    ensures |ListenerReplies(text, batches[|batches| - 1])| == 2
  {
    var n := |batches| - 1;
    assert BatchesFit(text, batches[..n]);
    TranscriptLength(text, batches[..n]);
  }

  /** A single listener sends just its own replies. */
  lemma TranscriptSingle(text: Option<string>, outcomes: seq<Outcome>)
    requires |outcomes| == |Queried(text)|
    ensures BatchesFit(text, [outcomes])
    ensures Transcript(text, [outcomes]) == ListenerReplies(text, outcomes)
  {
    assert [outcomes][..0] == [];
  }

  /** Read line by line, a listener's summary lists "+" and each number
      answered "registered" under the first header, and every other
      number, with " (error)" after a failed query, under the second;
      an empty list reads "None". */
  lemma SummaryLines(text: Option<string>, outcomes: seq<Outcome>)
    requires IsTruthy(text) && |outcomes| == |Queried(text)|
    ensures Lines(ListenerReplies(text, outcomes)[1])
         == [AvailableHeader] + Shown(Found(Queried(text), outcomes)) + ["", MissingHeader]
            + Shown(NotFound(Queried(text), outcomes))
  {
    var numbers := Queried(text);
    NormalizeYieldsDigitStrings(text.value);
    forall k | 0 <= k < |numbers| ensures '\n' !in numbers[k] {
      assert AllDigits(numbers[k]);
    }
    EntriesAreOneLine(numbers, outcomes);
    var found := Found(numbers, outcomes);
    var notFound := NotFound(numbers, outcomes);
    assert OneLineEntries(found) by {
      forall k | 0 <= k < |found| ensures found[k] != "" && OneLine(found[k]) {
        assert found[k] in found;
      }
    }
    assert OneLineEntries(notFound) by {
      forall k | 0 <= k < |notFound| ensures notFound[k] != "" && OneLine(notFound[k]) {
        assert notFound[k] in notFound;
      }
    }
    ReplyLines(found, notFound);
  }

  // ---------------------------------------------------------------------
  // Sessions

  /** `n` copies of `s`. */
  function Repeat(s: string, n: nat): (r: seq<string>)
    ensures |r| == n && forall k :: 0 <= k < n ==> r[k] == s
  {
    if n == 0 then [] else Repeat(s, n - 1) + [s]
  }

  /** After the client is ready, k uses of /checknumbers leave k listeners,
      and a single message then runs k lookup batches. */
  method ReadyThenCommands(k: nat, text: Option<string>, batches: seq<seq<Outcome>>)
    returns (sent: seq<string>)
    requires |batches| == k && BatchesFit(text, batches)
    ensures sent == Repeat(NumbersPrompt, k) + Transcript(text, batches)
  {
    var bot := new Bot();
    bot.OnReady();
    for i := 0 to k
      invariant bot.ready && bot.listeners == i && bot.sent == Repeat(NumbersPrompt, i)
    {
      bot.CheckNumbers();
    }
    bot.OnMessage(text, batches);
    sent := bot.sent;
  }

  /** Before the client is ready, /checknumbers only answers that it is
      not ready: no listener is added, so a following message makes no
      query and gets no reply. */
  method CommandBeforeReady(text: Option<string>) returns (sent: seq<string>)
    ensures sent == [NotReadyNotice]
  {
    var bot := new Bot();
    bot.CheckNumbers();
    bot.OnMessage(text, []);
    sent := bot.sent;
  }

  /** A disconnection lowers the flag, and /checknumbers is refused again
      until the next "ready", but the listeners already registered stay. */
  method CommandAfterDisconnect(text: Option<string>, outcomes: seq<Outcome>)
    returns (sent: seq<string>)
    requires |outcomes| == |Queried(text)|
    ensures sent == [NumbersPrompt, NotReadyNotice] + ListenerReplies(text, outcomes)
  {
    var bot := new Bot();
    bot.OnReady();
    bot.CheckNumbers();
    bot.OnDisconnected();
    bot.CheckNumbers();
    assert bot.listeners == 1 && bot.sent == [NumbersPrompt, NotReadyNotice];
    TranscriptSingle(text, outcomes);
    bot.OnMessage(text, [outcomes]);
    sent := bot.sent;
  }
}
