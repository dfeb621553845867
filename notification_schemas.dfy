/** The records of the notifications service: the create command, the stored
    notification (which is also what the service returns), and the decoded
    broker event. The field `type` of the source is called `kind` here. */
module NotificationSchemas {
  import opened Common

  /** What a caller supplies to create a notification. */
  datatype NotificationCreate = NotificationCreate(
    userId: string,
    kind: string,
    title: string,
    message: string,
    relatedProjectId: Option<string>,
    relatedUserId: Option<string>,
    relatedTaskId: Option<string>)

  /** A stored notification; the response returned by the service has the same fields. */
  datatype Notification = Notification(
    id: string,
    userId: string,
    kind: string,
    title: string,
    message: string,
    isRead: bool,
    createdAt: Timestamp,
    updatedAt: Timestamp,
    relatedProjectId: Option<string>,
    relatedUserId: Option<string>,
    relatedTaskId: Option<string>)

  /** A notification event as taken off the `notifications` topic, after validation. */
  datatype KafkaNotificationEvent = KafkaNotificationEvent(
    eventType: string,
    userId: string,
    notificationType: string,
    title: string,
    message: string,
    timestamp: Timestamp,
    relatedProjectId: Option<string>,
    relatedUserId: Option<string>,
    relatedTaskId: Option<string>)
}
