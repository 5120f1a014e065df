/** The client-facing notification endpoint: a message sent to /app/notify is echoed to
    every subscriber of /topic/updates with a bell prefix. */
module Notifications {
  import opened Wrappers
  import opened Repositories
  import AppConstants

  /** The notification record; its message may be null. */
  datatype NotificationMessage = NotificationMessage(message: Option<string>)

  /** How string concatenation renders a possibly-null string. */
  function Rendered(s: Option<string>): (t: string)
    ensures s.Some? ==> t == s.value
    ensures s.None? ==> t == "null"
  {
    if s.Some? then s.value else "null"
  }

  /** broadcast: the incoming message behind the two-character bell prefix. */
  function Broadcast(m: NotificationMessage): (out: NotificationMessage)
    ensures out.message.Some?
    ensures |out.message.value| == |Rendered(m.message)| + 2
    ensures out.message.value[..2] == AppConstants.BELL_PREFIX
    ensures out.message.value[2..] == Rendered(m.message)
  {
    NotificationMessage(Some(AppConstants.BELL_PREFIX + Rendered(m.message)))
  }

  /** Non-null messages are told apart: the broadcast determines the incoming message. */
  lemma BroadcastInjective(a: string, b: string)
    ensures Broadcast(NotificationMessage(Some(a))) == Broadcast(NotificationMessage(Some(b))) ==> a == b
  {
    if Broadcast(NotificationMessage(Some(a))) == Broadcast(NotificationMessage(Some(b))) {
      assert a == Broadcast(NotificationMessage(Some(a))).message.value[2..];
    }
  }

  /** A null message and the text "null" are broadcast alike. */
  lemma NullMessageLooksLikeText()
    ensures Broadcast(NotificationMessage(None)) == Broadcast(NotificationMessage(Some("null")))
  {
  }

  /** The endpoint publishes the broadcast message to the update topic. */
  method Notify(db: Database, m: NotificationMessage) returns (out: NotificationMessage)
    modifies db
    ensures out == Broadcast(m)
    ensures db.notifications == old(db.notifications) + [out.message.value]
    ensures db.users == old(db.users) && db.tasks == old(db.tasks) && db.comments == old(db.comments)
    ensures db.nextUserId == old(db.nextUserId) && db.nextTaskId == old(db.nextTaskId)
    ensures db.nextCommentId == old(db.nextCommentId)
  {
    out := Broadcast(m);
    db.notifications := db.notifications + [out.message.value];
  }
}
