/**
 * `TicketConverter`: a Freshdesk ticket (with its conversations) to the
 * Zendesk ticket-import payload. User ids go through `mapping`, the
 * fd_id → zd_id table of every stored user; timestamps go through `utc`,
 * the model of `Util.utc_format`.
 */
module TicketConverter {
  import opened Wrappers
  import Text

  datatype Conversation = Conversation(userId: Option<int>, createdAt: string, bodyText: Option<string>)

  /** The parts of a Freshdesk ticket the converter reads; `conversations` is nil unless attached. */
  datatype FdTicket = FdTicket(id: int, subject: Option<string>, descriptionText: Option<string>,
                               requesterId: Option<int>, responderId: Option<int>,
                               status: Option<int>, priority: Option<int>,
                               createdAt: string, updatedAt: string,
                               conversations: Option<seq<Conversation>>)

  datatype Comment = Comment(authorId: Option<int>, createdAt: string, body: Option<string>)

  datatype ZdTicket = ZdTicket(externalId: string, assigneeId: Option<int>, requesterId: Option<int>,
                               subject: string, comments: seq<Comment>, status: string,
                               priority: Option<string>, createdAt: string, updatedAt: string,
                               tags: seq<string>)

  /** fd_id → zd_id of every stored user; a user not yet imported maps to nil. */
  type Mapping = map<int, Option<int>>

  /** `DEFAULTS`: the fallback ids, all nil as shipped. */
  const DEFAULT_ASSIGNEE_ID: Option<int> := None
  const DEFAULT_REQUESTER_ID: Option<int> := None

  const CLOSED := "closed"
  const IMPORT_TAG := "freshdesk-import"
  const EXTERNAL_ID_PREFIX := "fd"
  const SUBJECT_PREFIX := "FD#"
  const SUBJECT_SEPARATOR := " - "

  /** The `STATUS` table (1..5). `convert` does not use it. */
  function StatusName(code: Option<int>): Option<string> {
    if code == Some(1) then Some("new")
    else if code == Some(2) then Some("open")
    else if code == Some(3) then Some("pending")
    else if code == Some(4) then Some("solved")
    else if code == Some(5) then Some("closed")
    else None
  }

  /** `PRIORITY[code]`: 1..4 are low, normal, high, urgent; any other code (or none) is nil. */
  function PriorityName(code: Option<int>): (r: Option<string>)
    ensures r.Some? <==> code.Some? && 1 <= code.value <= 4
  {
    if code == Some(1) then Some("low")
    else if code == Some(2) then Some("normal")
    else if code == Some(3) then Some("high")
    else if code == Some(4) then Some("urgent")
    else None
  }

  /** The inverse reading of the priority table. */
  function PriorityCode(name: string): Option<int> {
    if name == "low" then Some(1)
    else if name == "normal" then Some(2)
    else if name == "high" then Some(3)
    else if name == "urgent" then Some(4)
    else None
  }

  /** The priority table is one-to-one: a name maps back to its code, and a code to its name. */
  lemma PriorityRoundTrip(code: Option<int>, name: string)
    ensures PriorityName(code).Some? ==> PriorityCode(PriorityName(code).value) == code
    ensures PriorityCode(name).Some? ==> PriorityName(PriorityCode(name)) == Some(name)
  {
  }

  /** `user_zd_id`: nil for a nil fd id, else the mapping's entry (nil when absent). */
  function UserZdId(mapping: Mapping, fdId: Option<int>): (r: Option<int>)
    ensures fdId.None? ==> r.None?
    ensures fdId.Some? && fdId.value !in mapping ==> r.None?
    ensures fdId.Some? && fdId.value in mapping ==> r == mapping[fdId.value]
  {
    if fdId.None? then None else if fdId.value in mapping then mapping[fdId.value] else None
  }

  /**
   * `assignee_id`: with the nil default, an assignee is set exactly when the
   * responder is mapped to a destination user, and it is that user's id.
   */
  function AssigneeId(mapping: Mapping, t: FdTicket): (r: Option<int>)
    ensures r.Some? <==> t.responderId.Some? && t.responderId.value in mapping && mapping[t.responderId.value].Some?
    ensures r.Some? ==> r == mapping[t.responderId.value]
  {
    UserZdId(mapping, t.responderId).Or(DEFAULT_ASSIGNEE_ID)
  }

  /** `requester_id`: likewise for the requester. */
  function RequesterId(mapping: Mapping, t: FdTicket): (r: Option<int>)
    ensures r.Some? <==> t.requesterId.Some? && t.requesterId.value in mapping && mapping[t.requesterId.value].Some?
    ensures r.Some? ==> r == mapping[t.requesterId.value]
  {
    UserZdId(mapping, t.requesterId).Or(DEFAULT_REQUESTER_ID)
  }

  /** `external_id`: "fd" followed by the ticket id. */
  function ExternalId(t: FdTicket): string {
    EXTERNAL_ID_PREFIX + Text.IntToString(t.id)
  }

  lemma ExternalIdRoundTrip(t: FdTicket)
    ensures ExternalId(t)[..|EXTERNAL_ID_PREFIX|] == EXTERNAL_ID_PREFIX
    ensures Text.ParseInt(ExternalId(t)[|EXTERNAL_ID_PREFIX|..]) == Some(t.id)
  {
    assert ExternalId(t)[|EXTERNAL_ID_PREFIX|..] == Text.IntToString(t.id);
    Text.IntToStringRoundTrip(t.id);
  }

  /** `subject`: "FD#<id> - <subject>" (a nil subject reads as empty). */
  function Subject(t: FdTicket): string {
    SUBJECT_PREFIX + Text.IntToString(t.id) + SUBJECT_SEPARATOR + t.subject.GetOr("")
  }

  /** The subject starts with "FD#", ends with the source subject, and the id between them reads back. */
  lemma SubjectSpec(t: FdTicket)
    ensures var s := Subject(t); var n := |Text.IntToString(t.id)|; var e := t.subject.GetOr("");
      && s[..|SUBJECT_PREFIX|] == SUBJECT_PREFIX
      && s[|s| - |e|..] == e
      && |s| == |SUBJECT_PREFIX| + n + |SUBJECT_SEPARATOR| + |e|
      && Text.ParseInt(s[|SUBJECT_PREFIX|..|SUBJECT_PREFIX| + n]) == Some(t.id)
      && s[|SUBJECT_PREFIX| + n..|SUBJECT_PREFIX| + n + |SUBJECT_SEPARATOR|] == SUBJECT_SEPARATOR
  {
    var d := Text.IntToString(t.id);
    var s := Subject(t);
    assert s == SUBJECT_PREFIX + d + SUBJECT_SEPARATOR + t.subject.GetOr("");
    assert s[|SUBJECT_PREFIX|..|SUBJECT_PREFIX| + |d|] == d;
    Text.IntToStringRoundTrip(t.id);
  }

  /** The comment for one kept conversation. */
  function ConversationComment(mapping: Mapping, utc: string -> string, c: Conversation): Comment {
    Comment(UserZdId(mapping, c.userId), utc(c.createdAt), c.bodyText)
  }

  /** The conversations' comments: those with a non-blank body, in source order. */
  function ConversationComments(mapping: Mapping, utc: string -> string, cs: seq<Conversation>): seq<Comment>
    decreases |cs|
  {
    if cs == [] then []
    else if Text.BlankOpt(cs[0].bodyText) then ConversationComments(mapping, utc, cs[1..])
    else [ConversationComment(mapping, utc, cs[0])] + ConversationComments(mapping, utc, cs[1..])
  }

  function CountNonBlank(cs: seq<Conversation>): nat
    decreases |cs|
  {
    if cs == [] then 0 else (if Text.BlankOpt(cs[0].bodyText) then 0 else 1) + CountNonBlank(cs[1..])
  }

  lemma {:induction false} ConversationCommentsAppend(mapping: Mapping, utc: string -> string, a: seq<Conversation>, b: seq<Conversation>)
    ensures ConversationComments(mapping, utc, a + b) == ConversationComments(mapping, utc, a) + ConversationComments(mapping, utc, b)
    decreases |a|
  {
    if a == [] {
      assert a + b == b;
    } else {
      assert (a + b)[0] == a[0] && (a + b)[1..] == a[1..] + b;
      ConversationCommentsAppend(mapping, utc, a[1..], b);
    }
  }

  /**
   * One comment per conversation with a non-blank body, each with a non-blank
   * body taken from a conversation of the input.
   */
  lemma {:induction false} ConversationCommentsSpec(mapping: Mapping, utc: string -> string, cs: seq<Conversation>)
    ensures var r := ConversationComments(mapping, utc, cs);
      && |r| == CountNonBlank(cs)
      && (forall k | 0 <= k < |r| :: !Text.BlankOpt(r[k].body))
      && (forall k | 0 <= k < |r| :: exists c | c in cs :: r[k] == ConversationComment(mapping, utc, c))
    decreases |cs|
  {
    if cs != [] {
      ConversationCommentsSpec(mapping, utc, cs[1..]);
      var r := ConversationComments(mapping, utc, cs);
      var r' := ConversationComments(mapping, utc, cs[1..]);
      forall k | 0 <= k < |r| ensures exists c | c in cs :: r[k] == ConversationComment(mapping, utc, c) {
        if Text.BlankOpt(cs[0].bodyText) {
          var c :| c in cs[1..] && r'[k] == ConversationComment(mapping, utc, c);
          assert c in cs;
        } else if k == 0 {
          assert cs[0] in cs;
        } else {
          var c :| c in cs[1..] && r'[k - 1] == ConversationComment(mapping, utc, c);
          assert c in cs;
        }
      }
    }
  }

  /** The first comment: the description, by the requester, at the ticket's creation time. */
  function DescriptionComment(mapping: Mapping, utc: string -> string, t: FdTicket): Comment {
    Comment(RequesterId(mapping, t), utc(t.createdAt), t.descriptionText)
  }

  /** What `comments` builds; None when the ticket has no conversations attached (`nil.each` raises). */
  function CommentsOf(mapping: Mapping, utc: string -> string, t: FdTicket): Option<seq<Comment>> {
    if t.conversations.None? then None
    else Some([DescriptionComment(mapping, utc, t)] + ConversationComments(mapping, utc, t.conversations.value))
  }

  /** `comments`: the description comment, then one per conversation with a non-blank body. */
  method Comments(mapping: Mapping, utc: string -> string, t: FdTicket) returns (r: Option<seq<Comment>>)
    ensures r == CommentsOf(mapping, utc, t)
  {
    var comments := [DescriptionComment(mapping, utc, t)];
    if t.conversations.None? {
      return None;
    }
    var cs := t.conversations.value;
    var i := 0;
    while i < |cs|
      invariant 0 <= i <= |cs|
      invariant comments + ConversationComments(mapping, utc, cs[i..]) == CommentsOf(mapping, utc, t).value
      decreases |cs| - i
    {
      assert cs[i..][1..] == cs[i + 1..];
      if !Text.BlankOpt(cs[i].bodyText) {
        comments := comments + [ConversationComment(mapping, utc, cs[i])];
      }
      i := i + 1;
    }
    assert cs[i..] == [];
    assert comments + [] == comments;
    return Some(comments);
  }

  /** `convert`; None when `comments` raises. */
  function Convert(mapping: Mapping, utc: string -> string, t: FdTicket): Option<ZdTicket> {
    var comments := CommentsOf(mapping, utc, t);
    if comments.None? then None
    else Some(ZdTicket(ExternalId(t), AssigneeId(mapping, t), RequesterId(mapping, t), Subject(t),
                       comments.value, CLOSED, PriorityName(t.priority), utc(t.createdAt), utc(t.updatedAt),
                       [IMPORT_TAG]))
  }

  /** The whole `convert`, with `comments` built by its loop. */
  method ConvertTicket(mapping: Mapping, utc: string -> string, t: FdTicket) returns (r: Option<ZdTicket>)
    ensures r == Convert(mapping, utc, t)
  {
    var comments := Comments(mapping, utc, t);
    if comments.None? {
      return None;
    }
    r := Some(ZdTicket(ExternalId(t), AssigneeId(mapping, t), RequesterId(mapping, t), Subject(t),
                       comments.value, CLOSED, PriorityName(t.priority), utc(t.createdAt), utc(t.updatedAt),
                       [IMPORT_TAG]));
  }

  /**
   * The payload of a ticket with conversations: always closed, tagged exactly
   * "freshdesk-import", priority by the table, the description first (by the
   * requester, at creation time) and then one comment per non-blank
   * conversation.
   */
  lemma ConvertSpec(mapping: Mapping, utc: string -> string, t: FdTicket)
    ensures Convert(mapping, utc, t).Some? <==> t.conversations.Some?
    ensures var z := Convert(mapping, utc, t);
      z.Some? ==>
        && z.value.status == CLOSED
        && z.value.tags == [IMPORT_TAG]
        && z.value.priority == PriorityName(t.priority)
        && |z.value.comments| == 1 + CountNonBlank(t.conversations.value)
        && z.value.comments[0] == Comment(RequesterId(mapping, t), utc(t.createdAt), t.descriptionText)
        && (forall k | 1 <= k < |z.value.comments| :: !Text.BlankOpt(z.value.comments[k].body))
        && z.value.requesterId == UserZdId(mapping, t.requesterId)
        && z.value.assigneeId == UserZdId(mapping, t.responderId)
  {
    if t.conversations.Some? {
      ConversationCommentsSpec(mapping, utc, t.conversations.value);
      var z := Convert(mapping, utc, t).value;
      var rest := ConversationComments(mapping, utc, t.conversations.value);
      forall k | 1 <= k < |z.comments| ensures !Text.BlankOpt(z.comments[k].body) {
        assert z.comments[k] == rest[k - 1];
      }
    }
  }

  /** The source status does not reach the payload: changing it changes nothing. */
  lemma StatusIgnored(mapping: Mapping, utc: string -> string, t: FdTicket, s: Option<int>)
    ensures Convert(mapping, utc, t.(status := s)) == Convert(mapping, utc, t)
  {
    assert CommentsOf(mapping, utc, t.(status := s)) == CommentsOf(mapping, utc, t);
  }

  /** Conversations with a blank body leave no comment. */
  lemma BlankConversationDropped(mapping: Mapping, utc: string -> string, cs: seq<Conversation>, c: Conversation)
    requires Text.BlankOpt(c.bodyText)
    ensures ConversationComments(mapping, utc, cs + [c]) == ConversationComments(mapping, utc, cs)
  {
    ConversationCommentsAppend(mapping, utc, cs, [c]);
    assert [c][1..] == [];
  }
}
