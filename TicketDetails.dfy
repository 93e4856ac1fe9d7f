/**
 * The ticket detail pane: the conversation of one ticket, the compose box, the
 * AI suggestion and the status selector. The pane's state is a class whose
 * handlers change it step by step; the backend insert, update and AI call are
 * outcomes passed in, and the prompt sent to the AI is a pure string function.
 */
module TicketDetails {
  import opened Seqs
  import opened Strings
  import opened Records

  /** The row `sendMessage` inserts into `ticket_messages`. */
  datatype MessageInsert = MessageInsert(ticketId: string, senderType: string, senderName: string, message: string)

  /** The row update `updateTicketStatus` sends to `support_tickets`. */
  datatype StatusUpdate = StatusUpdate(ticketId: string, status: string)

  // ------------------------------------------------------------ the AI prompt

  /** `${m.sender_type}: ${m.message}`. */
  function FormatMessage(m: Message): (line: string)
    ensures |line| == |m.senderType| + 2 + |m.message|
    ensures line[..|m.senderType|] == m.senderType && line[|m.senderType| + 2..] == m.message
    ensures line[|m.senderType|..|m.senderType| + 2] == ": "
  {
    m.senderType + ": " + m.message
  }

  /** `messages.slice(-3)`: the last three messages, or all of them when there are fewer. */
  function RecentMessages(ms: seq<Message>): (r: seq<Message>)
    ensures |r| == Min(3, |ms|)
    ensures r == ms[|ms| - |r|..]
  {
    var from := RelativeIndex(-3, |ms|);
    assert from == |ms| - Min(3, |ms|);
    var r := Slice(ms, -3, |ms|);
    assert r == ms[from..];
    r
  }

  /** Taking the recent messages of the recent messages changes nothing. */
  lemma RecentMessagesIdempotent(ms: seq<Message>)
    ensures RecentMessages(RecentMessages(ms)) == RecentMessages(ms)
  {
  }

  /** Messages before the last three never reach the prompt. */
  lemma RecentMessagesIgnoreOlder(older: seq<Message>, ms: seq<Message>)
    requires |ms| >= 3
    ensures RecentMessages(older + ms) == RecentMessages(ms)
  {
    assert (older + ms)[|older + ms| - 3..] == ms[|ms| - 3..];
  }

  /** The `Recent messages:` part of the context: one formatted line per recent message. */
  function RecentMessagesText(ms: seq<Message>): string
  {
    Join(Map(FormatMessage, RecentMessages(ms)), "\n")
  }

  /**
   * When no sender type or message body holds a line break, the recent-messages
   * text splits back at its line breaks into exactly the formatted lines.
   */
  lemma RecentMessagesTextLines(ms: seq<Message>)
    requires |ms| > 0
    requires forall i :: 0 <= i < |ms| ==> '\n' !in ms[i].senderType && '\n' !in ms[i].message
    ensures Split(RecentMessagesText(ms), '\n') == Map(FormatMessage, RecentMessages(ms))
    ensures |Split(RecentMessagesText(ms), '\n')| == Min(3, |ms|)
  {
    var rs := RecentMessages(ms);
    var lines := Map(FormatMessage, rs);
    forall i | 0 <= i < |lines| ensures '\n' !in lines[i] {
      var m := rs[i];
      assert m == ms[|ms| - |rs| + i];
      assert lines[i] == m.senderType + ": " + m.message;
    }
    SplitJoin(lines, '\n');
  }

  /**
   * The `context` template. The template literal's line breaks are line feeds
   * and its lines keep their eight-space indentation; the closing line keeps six.
   */
  function Context(t: Ticket, ms: seq<Message>): string
  {
    "\n        Ticket: " + t.title
    + "\n        Description: " + t.description
    + "\n        Category: " + t.category
    + "\n        Priority: " + t.priority
    + "\n        Customer: " + t.customer.name + " from " + t.customer.company
    + "\n        Recent messages: " + RecentMessagesText(ms)
    + "\n      "
  }

  const PromptPreamble: string := "Based on this customer support ticket, suggest a helpful response:\n\n"

  /** The `message` sent to the AI function. */
  function AIPrompt(t: Ticket, ms: seq<Message>): (p: string)
    ensures |PromptPreamble| < |p| && p[..|PromptPreamble|] == PromptPreamble
  {
    PromptPreamble + Context(t, ms)
  }

  /** The prompt depends on the conversation only through its last three messages. */
  lemma AIPromptIgnoresOlderMessages(t: Ticket, older: seq<Message>, ms: seq<Message>)
    requires |ms| >= 3
    ensures AIPrompt(t, older + ms) == AIPrompt(t, ms)
    ensures AIPrompt(t, ms) == AIPrompt(t, RecentMessages(ms))
  {
    RecentMessagesIgnoreOlder(older, ms);
    RecentMessagesIdempotent(ms);
  }

  // ------------------------------------------------------- guards and labels

  /** `disabled={loading || !newMessage.trim()}` on the send button. */
  function SendDisabled(loading: bool, draft: string): (disabled: bool)
    ensures disabled <==> loading || IsBlank(draft)
  {
    loading || Trim(draft) == ""
  }

  /**
   * `status.replace('_', ' ')`: the first underscore becomes a space and every
   * other character, later underscores included, stays.
   */
  function StatusLabel(status: string): (shown: string)
    ensures |shown| == |status|
    ensures '_' !in status ==> shown == status
    ensures '_' in status ==> var k := FirstIndex(status, '_');
      && shown[k] == ' '
      && forall i :: 0 <= i < |status| && i != k ==> shown[i] == status[i]
  {
    ReplaceFirst(status, '_', ' ')
  }

  /** The four statuses of the selector read "open", "in progress", "resolved" and "closed". */
  lemma StatusLabelsOfSelector()
    ensures StatusLabel("open") == "open"
    ensures StatusLabel("in_progress") == "in progress"
    ensures StatusLabel("resolved") == "resolved"
    ensures StatusLabel("closed") == "closed"
  {
    assert '_' !in "open" && '_' !in "resolved" && '_' !in "closed";
    assert "in_progress" == "in" + ['_'] + "progress";
    assert "in progress" == "in" + [' '] + "progress";
    ReplaceFirstAfter("in", '_', ' ', "progress");
  }

  /** With two underscores, the second one stays. */
  lemma StatusLabelReplacesFirstOnly()
    ensures StatusLabel("a_b_c") == "a b_c"
  {
    assert "a_b_c" == "a" + ['_'] + "b_c";
    assert "a b_c" == "a" + [' '] + "b_c";
    ReplaceFirstAfter("a", '_', ' ', "b_c");
  }

  // ------------------------------------------------------------- the pane

  /**
   * The state of the pane: the selected ticket (or none), the conversation, the
   * draft reply, the AI suggestion and the two busy flags. The dashboard keeps
   * one pane and hands it each newly selected ticket, so the ticket changes
   * while the rest of the state stays.
   */
  class TicketDetailsView {
    var ticket: Option<Ticket>
    var messages: seq<Message>
    var newMessage: string
    var aiSuggestion: string
    var loading: bool
    var loadingAI: bool

    /**
     * Between handlers neither busy flag is set: every handler that raises one
     * lowers it again before it returns.
     */
    ghost predicate Valid()
      reads this`loading, this`loadingAI
    {
      !loading && !loadingAI
    }

    constructor (ticket: Option<Ticket>)
      ensures Valid()
      ensures this.ticket == ticket
      ensures messages == [] && newMessage == "" && aiSuggestion == ""
    {
      this.ticket := ticket;
      messages := [];
      newMessage := "";
      aiSuggestion := "";
      loading := false;
      loadingAI := false;
    }

    /**
     * A new `ticket` prop from the dashboard. Only the ticket changes: the
     * conversation, the draft and the suggestion of the previous ticket stay
     * until the next `fetchMessages`, send or suggestion replaces them.
     */
    method SelectTicket(t: Option<Ticket>)
      requires Valid()
      modifies this`ticket
      ensures Valid() && ticket == t
      ensures messages == old(messages) && newMessage == old(newMessage) && aiSuggestion == old(aiSuggestion)
    {
      ticket := t;
    }

    /** `fetchMessages`: a null result set loads as empty, a failed query keeps the old list. */
    method FetchMessages(result: Outcome<Option<seq<Message>>>)
      requires Valid()
      modifies this`messages
      ensures Valid()
      ensures ticket.None? ==> messages == old(messages)
      ensures ticket.Some? ==> messages == match result
        case Succeeded(rows) => rows.GetOr([])
        case Failed => old(messages)
    {
      if ticket.None? {
        return;
      }
      match result {
        case Succeeded(rows) =>
          messages := rows.GetOr([]);
        case Failed =>
      }
    }

    /** The text area's `onChange`. */
    method SetNewMessage(text: string)
      requires Valid()
      modifies this`newMessage
      ensures Valid() && newMessage == text
    {
      newMessage := text;
    }

    /**
     * `sendMessage`. Nothing happens without a ticket or with a blank draft.
     * Otherwise the draft, untrimmed, is inserted as a message from the
     * support agent; the draft is cleared only when the insert succeeds, and
     * the busy flag raised for the call is lowered whatever the outcome.
     */
    method SendMessage(insertSucceeds: bool) returns (sent: Option<MessageInsert>)
      requires Valid()
      modifies this`newMessage, this`loading
      ensures Valid()
      ensures sent.Some? <==> ticket.Some? && !IsBlank(old(newMessage))
      ensures sent.Some? ==> sent.value == MessageInsert(ticket.value.id, "agent", "Support Agent", old(newMessage))
      ensures newMessage == if sent.Some? && insertSucceeds then "" else old(newMessage)
    {
      if ticket.None? || Trim(newMessage) == "" {
        return None;
      }
      loading := true;
      sent := Some(MessageInsert(ticket.value.id, "agent", "Support Agent", newMessage));
      if insertSucceeds {
        newMessage := "";
      }
      loading := false;
    }

    /**
     * `getAISuggestion`. Without a ticket nothing happens. Otherwise the prompt
     * built from the ticket and its last three messages is sent; a reply
     * replaces the suggestion, a failure keeps the old one, and the busy flag
     * is lowered either way.
     */
    method GetAISuggestion(reply: Outcome<string>) returns (prompt: Option<string>)
      requires Valid()
      modifies this`aiSuggestion, this`loadingAI
      ensures Valid()
      ensures prompt.Some? <==> ticket.Some?
      ensures prompt.Some? ==> prompt.value == AIPrompt(ticket.value, messages)
      ensures aiSuggestion == if ticket.Some? && reply.Succeeded? then reply.value else old(aiSuggestion)
    {
      if ticket.None? {
        return None;
      }
      loadingAI := true;
      prompt := Some(AIPrompt(ticket.value, messages));
      match reply {
        case Succeeded(text) =>
          aiSuggestion := text;
        case Failed =>
      }
      loadingAI := false;
    }

    /**
     * "Use this response", a button shown only while there is a suggestion:
     * the suggestion moves into the draft and the suggestion panel empties.
     * The send button is then enabled exactly when the suggestion was not blank.
     */
    method UseSuggestion()
      requires Valid() && aiSuggestion != ""
      modifies this`newMessage, this`aiSuggestion
      ensures Valid()
      ensures newMessage == old(aiSuggestion) && aiSuggestion == ""
      ensures !SendDisabled(loading, newMessage) <==> !IsBlank(old(aiSuggestion))
    {
      newMessage := aiSuggestion;
      aiSuggestion := "";
    }

    /**
     * `updateTicketStatus`. Without a ticket nothing is sent. Otherwise the
     * update is sent; the parent is told to refresh only when it succeeds, and
     * the confirmation then names the status with its first underscore spaced.
     */
    method UpdateTicketStatus(status: string, updateSucceeds: bool)
      returns (request: Option<StatusUpdate>, notifiesParent: bool, confirmation: Option<string>)
      ensures request.Some? <==> ticket.Some?
      ensures request.Some? ==> request.value == StatusUpdate(ticket.value.id, status)
      ensures notifiesParent <==> ticket.Some? && updateSucceeds
      ensures confirmation.Some? <==> notifiesParent
      ensures confirmation.Some? ==> confirmation.value == "Ticket status changed to " + StatusLabel(status)
    {
      if ticket.None? {
        return None, false, None;
      }
      request := Some(StatusUpdate(ticket.value.id, status));
      if updateSucceeds {
        notifiesParent := true;
        confirmation := Some("Ticket status changed to " + StatusLabel(status));
      } else {
        notifiesParent := false;
        confirmation := None;
      }
    }
  }
}
