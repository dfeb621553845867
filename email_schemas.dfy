/** The records of the Python email service: the send request, the stored log
    entry, the response built from it, the decoded broker event and the stats. */
module EmailSchemas {
  import opened Common

  /** `EmailLog.status`; its column default is `pending`. */
  datatype EmailStatus = Pending | Sent | Failed

  /** A request to send an email. Template data values are taken to be strings. */
  datatype EmailRequest = EmailRequest(
    toEmail: string,
    toName: Option<string>,
    subject: string,
    body: string,
    templateName: Option<string>,
    templateData: Option<map<string, string>>,
    eventType: Option<string>,
    relatedUserId: Option<string>,
    relatedProjectId: Option<string>)

  /** One entry of the service's email log. */
  datatype EmailLog = EmailLog(
    id: string,
    toEmail: string,
    toName: Option<string>,
    subject: string,
    body: string,
    status: EmailStatus,
    createdAt: Timestamp,
    sentAt: Option<Timestamp>,
    eventType: Option<string>,
    relatedUserId: Option<string>,
    relatedProjectId: Option<string>,
    errorMessage: Option<string>)

  /** What callers get back: the fields of a log entry that `EmailResponse` declares. */
  datatype EmailResponse = EmailResponse(
    id: string,
    toEmail: string,
    toName: Option<string>,
    subject: string,
    status: EmailStatus,
    createdAt: Timestamp,
    sentAt: Option<Timestamp>,
    errorMessage: Option<string>)

  /** An email event as taken off the `emails` topic, after validation. */
  datatype KafkaEmailEvent = KafkaEmailEvent(
    eventType: string,
    toEmail: string,
    toName: Option<string>,
    subject: string,
    body: string,
    templateName: Option<string>,
    templateData: Option<map<string, string>>,
    timestamp: Timestamp,
    relatedUserId: Option<string>,
    relatedProjectId: Option<string>)

  datatype EmailStats = EmailStats(totalSent: nat, totalFailed: nat, totalPending: nat)

  /** `EmailResponse(**email_log)`: the response keeps the declared fields and drops the rest. */
  function ResponseOf(log: EmailLog): EmailResponse
  {
    EmailResponse(log.id, log.toEmail, log.toName, log.subject, log.status,
                  log.createdAt, log.sentAt, log.errorMessage)
  }
}
