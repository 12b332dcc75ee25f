/** Project chat (src/services/chatService.ts): the project's student and its
    accepted developer exchange messages; reading a conversation marks the
    reader's unread messages read. */
module ChatService {
  import opened Wrappers
  import opened Models
  import opened Ordering
  import opened Database

  /** The body of a send request: the text and an attachment's file name. */
  datatype MessageInput = MessageInput(message: Option<string>, fileName: Option<string>)

  /** sendMessage. The receiver is the counterpart of the sender; the sender
      is not otherwise checked. `fileUrl` is where the upload was stored. */
  function SendMessageOutcome(s: Store, projectId: Id, senderId: Id, input: MessageInput,
                              fileUrl: Option<string>, now: Time): (o: Outcome<(Id, ChatMessage)>)
    requires s.Valid()
    ensures o.after.Valid()
  {
    if projectId !in s.projects then Fail(s, "Project not found", 404)
    else
      var p := s.projects[projectId];
      var receiver := Counterpart(p, AcceptedDeveloper(s, p), senderId);
      if !PresentId(receiver) then Fail(s, "No active developer for this project", 400)
      else
        var id := Fresh(s);
        var msg := ChatMessage(projectId, senderId, receiver.value, TextOrNull(input.message),
                               TextOrNull(fileUrl), TextOrNull(input.fileName), false, now);
        var n := NewNotification(receiver.value, "New Message", "You have a new message for project",
                                 "message", Some(projectId), now);
        Outcome(Ok((id, msg)), s.(messages := s.messages[id := msg],
                                  notifications := s.notifications[id + 1 := n], nextId := id + 2))
  }

  /** sendMessage fails with 404 for an unknown project and with 400 when the
      student writes before a developer is accepted; otherwise it stores one
      unread message to the counterpart and one notification to that
      receiver about the project, and nothing else. */
  lemma SendMessageEffect(s: Store, projectId: Id, senderId: Id, input: MessageInput,
                          fileUrl: Option<string>, now: Time)
    requires s.Valid()
    ensures var o := SendMessageOutcome(s, projectId, senderId, input, fileUrl, now);
      && (projectId !in s.projects ==> o.result == Err(AppError("Project not found", 404)))
      && (projectId in s.projects
          && !PresentId(Counterpart(s.projects[projectId], AcceptedDeveloper(s, s.projects[projectId]), senderId)) ==>
            o.result == Err(AppError("No active developer for this project", 400)))
      && (projectId in s.projects && senderId == s.projects[projectId].studentId
          && AcceptedDeveloper(s, s.projects[projectId]).None? ==>
            o.result == Err(AppError("No active developer for this project", 400)))
      && (projectId in s.projects
          && PresentId(Counterpart(s.projects[projectId], AcceptedDeveloper(s, s.projects[projectId]), senderId)) ==>
            o.result.Ok?)
      && (o.result.Err? ==> o.after == s)
      && (o.result.Ok? ==> var (id, m) := o.result.value;
            && projectId in s.projects
            && Some(m.receiverId) == Counterpart(s.projects[projectId], AcceptedDeveloper(s, s.projects[projectId]), senderId)
            && m.projectId == projectId && m.senderId == senderId && !m.isRead
            && m.message == TextOrNull(input.message) && m.fileUrl == TextOrNull(fileUrl)
            && m.fileName == TextOrNull(input.fileName) && m.createdAt == now
            && id !in s.messages && o.after.messages == s.messages[id := m]
            && |o.after.notifications| == |s.notifications| + 1
            && (exists k: Id :: k !in s.notifications && o.after.notifications == s.notifications[k := NewNotification(
                  m.receiverId, "New Message", "You have a new message for project", "message", Some(projectId), now)])
            && o.after == s.(messages := o.after.messages, notifications := o.after.notifications,
                             nextId := o.after.nextId))
  {
    var o := SendMessageOutcome(s, projectId, senderId, input, fileUrl, now);
    if o.result.Ok? {
      var id := o.result.value.0;
      assert id + 1 !in s.notifications;
    }
  }

  /** getMessages' access check: the project's student or the developer of
      its accepted proposal. */
  predicate CanRead(s: Store, p: Project, userId: Id) {
    userId == p.studentId || AcceptedDeveloper(s, p) == Some(userId)
  }

  function MessageCreatedAt(m: ChatMessage): int { m.createdAt }

  /** The messages of one project. */
  function MessagesOf(m: map<Id, ChatMessage>, projectId: Id): (r: map<Id, ChatMessage>)
    ensures forall k :: k in r <==> k in m && m[k].projectId == projectId
    ensures forall k :: k in r ==> r[k] == m[k]
  {
    map k | k in m && m[k].projectId == projectId :: m[k]
  }

  /** Whether the UPDATE that marks messages read picks the row. */
  predicate Unread(m: ChatMessage, projectId: Id, userId: Id) {
    m.projectId == projectId && m.receiverId == userId && !m.isRead
  }

  /** `UPDATE chat_messages SET is_read = true WHERE project_id = $1 AND
      receiver_id = $2 AND is_read = false`. */
  function MarkConversationRead(m: map<Id, ChatMessage>, projectId: Id, userId: Id): (r: map<Id, ChatMessage>)
    ensures r.Keys == m.Keys
    ensures forall k :: k in m && Unread(m[k], projectId, userId) ==> r[k] == m[k].(isRead := true)
    ensures forall k :: k in m && !Unread(m[k], projectId, userId) ==> r[k] == m[k]
  {
    map k | k in m :: if Unread(m[k], projectId, userId) then m[k].(isRead := true) else m[k]
  }

  /** Afterwards the user has no unread message in the project, and marking
      again changes nothing. */
  lemma MarkConversationReadSettles(m: map<Id, ChatMessage>, projectId: Id, userId: Id)
    ensures var r := MarkConversationRead(m, projectId, userId);
      && (forall k :: k in r ==> !Unread(r[k], projectId, userId))
      && MarkConversationRead(r, projectId, userId) == r
  {
    var r := MarkConversationRead(m, projectId, userId);
    forall k | k in r ensures !Unread(r[k], projectId, userId) {
      if Unread(m[k], projectId, userId) {
        assert r[k] == m[k].(isRead := true);
      }
    }
  }

  /** `SELECT ... FROM chat_messages WHERE project_id = $1 ORDER BY
      created_at ASC`: the ids of the project's messages, each once, oldest
      first. */
  function ConversationIds(m: map<Id, ChatMessage>, projectId: Id): (ids: seq<Id>)
    ensures |ids| == |MessagesOf(m, projectId)|
    ensures forall k :: k in ids <==> k in m && m[k].projectId == projectId
    ensures OldestOrder(ids, m, MessageCreatedAt)
  {
    var mine := MessagesOf(m, projectId);
    var ids := OldestFirst(mine, MessageCreatedAt);
    OldestOrderWider(ids, mine, m, MessageCreatedAt);
    ids
  }

  /** A returned row: the message's id and its columns. */
  datatype MessageRow = MessageRow(id: Id, message: ChatMessage)

  /** The rows of `ids`, read from `m`. */
  function RowsOf(ids: seq<Id>, m: map<Id, ChatMessage>): (rows: seq<MessageRow>)
    requires forall k :: k in ids ==> k in m
    ensures |rows| == |ids|
    ensures forall i :: 0 <= i < |rows| ==> rows[i] == MessageRow(ids[i], m[ids[i]])
  {
    seq(|ids|, i requires 0 <= i < |ids| => MessageRow(ids[i], m[ids[i]]))
  }

  /** getMessages: the project's messages as they were before the reader's
      unread ones were marked read. */
  function GetMessagesOutcome(s: Store, projectId: Id, userId: Id): (o: Outcome<seq<MessageRow>>)
    requires s.Valid()
    ensures o.after.Valid()
    ensures projectId !in s.projects ==> o.result == Err(AppError("Project not found", 404)) && o.after == s
    ensures projectId in s.projects && !CanRead(s, s.projects[projectId], userId) ==>
      o.result == Err(AppError("Unauthorized to view messages", 403)) && o.after == s
    ensures o.result.Ok? ==>
      && projectId in s.projects && CanRead(s, s.projects[projectId], userId)
      && o.result.value == RowsOf(ConversationIds(s.messages, projectId), s.messages)
      && o.after == s.(messages := MarkConversationRead(s.messages, projectId, userId))
  {
    if projectId !in s.projects then Fail(s, "Project not found", 404)
    else if !CanRead(s, s.projects[projectId], userId) then Fail(s, "Unauthorized to view messages", 403)
    else Outcome(Ok(RowsOf(ConversationIds(s.messages, projectId), s.messages)),
                 s.(messages := MarkConversationRead(s.messages, projectId, userId)))
  }

  /** getConversations: the projects with an accepted proposal where the user
      is the student or the accepted proposal's developer. */
  function Conversations(s: Store, userId: Id): (r: set<Id>)
    ensures forall k :: k in r <==> k in s.projects && s.projects[k].acceptedProposalId.Some?
                                    && (s.projects[k].studentId == userId
                                        || AcceptedDeveloper(s, s.projects[k]) == Some(userId))
  {
    set k | k in s.projects && s.projects[k].acceptedProposalId.Some?
            && (s.projects[k].studentId == userId || AcceptedDeveloper(s, s.projects[k]) == Some(userId))
  }

  /** A project is among the user's conversations exactly when a proposal is
      accepted on it and the user may read its messages. */
  lemma ConversationsAreReadable(s: Store, userId: Id, projectId: Id)
    requires projectId in s.projects
    ensures projectId in Conversations(s, userId)
            <==> s.projects[projectId].acceptedProposalId.Some? && CanRead(s, s.projects[projectId], userId)
  {
  }

  class ChatServiceImpl {
    const db: Db

    constructor (db: Db)
      ensures this.db == db
    {
      this.db := db;
    }

    method SendMessage(projectId: Id, senderId: Id, input: MessageInput, fileUrl: Option<string>, now: Time)
      returns (r: Result<(Id, ChatMessage)>)
      requires db.Valid()
      modifies db
      ensures var o := SendMessageOutcome(old(db.State()), projectId, senderId, input, fileUrl, now);
        r == o.result && db.State() == o.after
      ensures db.Valid()
    {
      ghost var before := db.State();
      if projectId !in db.projects {
        return Err(AppError("Project not found", 404));
      }
      var p := db.projects[projectId];
      var receiver := Counterpart(p, AcceptedDeveloper(db.State(), p), senderId);
      if !PresentId(receiver) {
        return Err(AppError("No active developer for this project", 400));
      }
      var id := db.NewId();
      var msg := ChatMessage(projectId, senderId, receiver.value, TextOrNull(input.message),
                             TextOrNull(fileUrl), TextOrNull(input.fileName), false, now);
      db.messages := db.messages[id := msg];
      assert db.State() == before.(messages := before.messages[id := msg], nextId := id + 1);
      var n := NewNotification(receiver.value, "New Message", "You have a new message for project",
                               "message", Some(projectId), now);
      db.Notify(n);
      r := Ok((id, msg));
      assert SendMessageOutcome(before, projectId, senderId, input, fileUrl, now)
          == Outcome(r, before.(messages := before.messages[id := msg],
                                notifications := before.notifications[id + 1 := n], nextId := id + 2));
    }

    /** Reads the rows first, then marks the reader's unread messages read. */
    method GetMessages(projectId: Id, userId: Id) returns (r: Result<seq<MessageRow>>)
      requires db.Valid()
      modifies db
      ensures var o := GetMessagesOutcome(old(db.State()), projectId, userId);
        r == o.result && db.State() == o.after
      ensures db.Valid()
    {
      if projectId !in db.projects {
        return Err(AppError("Project not found", 404));
      }
      if !CanRead(db.State(), db.projects[projectId], userId) {
        return Err(AppError("Unauthorized to view messages", 403));
      }
      var rows := RowsOf(ConversationIds(db.messages, projectId), db.messages);
      db.messages := MarkConversationRead(db.messages, projectId, userId);
      r := Ok(rows);
    }
  }
}
