/** The Python email service: body selection, the insertion-ordered email log
    and the queries over it. */
module EmailServices {
  import opened Common
  import opened Sequences
  import opened EmailSchemas

  /** The names of the templates the service holds. */
  const TemplateNames: set<string> := {"welcome", "project_invitation", "task_assigned"}

  /** Jinja2's rendering of the known template of the given name with the given
      data; what it produces is not modelled. */
  type Renderer = (string, map<string, string>) -> string

  /** Python truthiness of optional template data: present and not empty. */
  predicate TruthyData(d: Option<map<string, string>>)
  {
    d.Some? && |d.value| > 0
  }

  /** `_render_template`: a known template goes to Jinja2; for any other name
      the result is the `body` entry of the template data, or "". */
  function RenderTemplate(name: string, data: map<string, string>, jinja: Renderer): (r: string)
    ensures name in TemplateNames ==> r == jinja(name, data)
    ensures name !in TemplateNames && "body" in data ==> r == data["body"]
    ensures name !in TemplateNames && "body" !in data ==> r == ""
  {
    if name !in TemplateNames then (if "body" in data then data["body"] else "")
    else jinja(name, data)
  }

  /** The body `send_email` stores: rendered only when both the template name
      and the template data are truthy, the request's own body otherwise. */
  function SelectBody(req: EmailRequest, jinja: Renderer): (body: string)
    ensures body != req.body ==> TruthyString(req.templateName) && TruthyData(req.templateData)
    ensures TruthyString(req.templateName) && TruthyData(req.templateData) && req.templateName.value in TemplateNames ==>
      body == jinja(req.templateName.value, req.templateData.value)
  {
    if TruthyString(req.templateName) && TruthyData(req.templateData) then
      RenderTemplate(req.templateName.value, req.templateData.value, jinja)
    else req.body
  }

  /** Jinja2 is consulted only for a known template name: otherwise the stored
      body does not depend on the renderer at all. */
  lemma RendererOnlyForKnownTemplates(req: EmailRequest, j1: Renderer, j2: Renderer)
    requires req.templateName.None? || req.templateName.value !in TemplateNames
    ensures SelectBody(req, j1) == SelectBody(req, j2)
  {
  }

  /** An unknown template name with data that has no `body` entry stores an
      empty body, whatever the request's own body was. */
  lemma UnknownTemplateIgnoresRequestBody(req: EmailRequest, jinja: Renderer)
    requires TruthyString(req.templateName) && req.templateName.value !in TemplateNames
    requires TruthyData(req.templateData) && "body" !in req.templateData.value
    ensures SelectBody(req, jinja) == ""
  {
  }

  /** The number of log entries with status `st` (a `sum(1 for ...)` of `get_email_stats`). */
  function CountStatus(logs: seq<EmailLog>, st: EmailStatus): (c: nat)
    ensures c <= |logs|
  {
    if logs == [] then 0
    else CountStatus(logs[..|logs| - 1], st) + (if logs[|logs| - 1].status == st then 1 else 0)
  }

  lemma CountStatusAppend(logs: seq<EmailLog>, log: EmailLog, st: EmailStatus)
    ensures CountStatus(logs + [log], st) == CountStatus(logs, st) + (if log.status == st then 1 else 0)
  {
    assert (logs + [log])[..|logs|] == logs;
  }

  /** Every entry is counted under exactly one status. */
  lemma {:induction false} StatusCountsPartition(logs: seq<EmailLog>)
    ensures CountStatus(logs, Sent) + CountStatus(logs, Failed) + CountStatus(logs, Pending) == |logs|
  {
    if logs != [] {
      StatusCountsPartition(logs[..|logs| - 1]);
    }
  }

  /** A log with no pending entry counts none. */
  lemma {:induction false} NoPendingCounted(logs: seq<EmailLog>)
    requires forall i :: 0 <= i < |logs| ==> logs[i].status != Pending
    ensures CountStatus(logs, Pending) == 0
  {
    if logs != [] {
      NoPendingCounted(logs[..|logs| - 1]);
    }
  }

  /** `process_kafka_event`: the send request an event maps to. */
  function ToRequest(e: KafkaEmailEvent): (r: EmailRequest)
    ensures r.toEmail == e.toEmail && r.toName == e.toName && r.subject == e.subject && r.body == e.body
    ensures r.templateName == e.templateName && r.templateData == e.templateData
    ensures r.eventType == Some(e.eventType)
    ensures r.relatedUserId == e.relatedUserId && r.relatedProjectId == e.relatedProjectId
  {
    EmailRequest(e.toEmail, e.toName, e.subject, e.body, e.templateName, e.templateData,
                 Some(e.eventType), e.relatedUserId, e.relatedProjectId)
  }

  class EmailService {
    /** The dictionary's keys in insertion order. */
    var order: seq<string>
    /** `self.email_logs`: id to log entry. */
    var emailLogs: map<string, EmailLog>

    /** Keys and entries agree, and `send_email` only ever stores `sent` or `failed`. */
    ghost predicate Valid()
      reads this
    {
      && Distinct(order)
      && (forall k :: k in order <==> k in emailLogs)
      && (forall k :: k in emailLogs ==> emailLogs[k].id == k && emailLogs[k].status != Pending)
    }

    /** `self.email_logs.values()`, in insertion order. */
    function Logs(): seq<EmailLog>
      reads this
      requires Valid()
    {
      ValuesOf(order, emailLogs)
    }

    constructor ()
      ensures Valid()
      ensures order == [] && emailLogs == map[]
    {
      order := [];
      emailLogs := map[];
    }

    /** `send_email`. `id` stands for the fresh `uuid4()`, `now` for the clock,
        `failure` for the message of an exception raised while sending (None when
        sending succeeds), `jinja` for Jinja2. */
    method SendEmail(req: EmailRequest, id: string, now: Timestamp, failure: Option<string>, jinja: Renderer)
      returns (resp: EmailResponse)
      requires Valid()
      requires id !in emailLogs
      modifies this
      ensures Valid()
      ensures order == old(order) + [id]
      ensures emailLogs.Keys == old(emailLogs).Keys + {id}
      ensures forall k :: k in old(emailLogs) ==> emailLogs[k] == old(emailLogs)[k]
      ensures Logs() == old(Logs()) + [emailLogs[id]]
      ensures var log := emailLogs[id];
        && log.id == id && log.toEmail == req.toEmail && log.toName == req.toName
        && log.subject == req.subject && log.body == SelectBody(req, jinja) && log.createdAt == now
        && log.eventType == req.eventType && log.relatedUserId == req.relatedUserId
        && log.relatedProjectId == req.relatedProjectId
        && (failure.None? ==> log.status == Sent && log.sentAt == Some(now) && log.errorMessage == None)
        && (failure.Some? ==> log.status == Failed && log.sentAt == None && log.errorMessage == failure)
        && resp == ResponseOf(log)
      ensures resp.status != Pending
      ensures var before := old(GetEmailStats());
        if failure.None? then GetEmailStats() == before.(totalSent := before.totalSent + 1)
        else GetEmailStats() == before.(totalFailed := before.totalFailed + 1)
    {
      var body := SelectBody(req, jinja);
      var log;
      if failure.None? {
        log := EmailLog(id, req.toEmail, req.toName, req.subject, body, Sent, now, Some(now),
                        req.eventType, req.relatedUserId, req.relatedProjectId, None);
      } else {
        log := EmailLog(id, req.toEmail, req.toName, req.subject, body, Failed, now, None,
                        req.eventType, req.relatedUserId, req.relatedProjectId, failure);
      }
      ValuesOfInsert(order, emailLogs, id, log);
      CountStatusAppend(Logs(), log, Sent);
      CountStatusAppend(Logs(), log, Failed);
      CountStatusAppend(Logs(), log, Pending);
      emailLogs := emailLogs[id := log];
      order := order + [id];
      resp := ResponseOf(log);
    }

    /** `get_email_log`. */
    function GetEmailLog(id: string): (r: Option<EmailResponse>)
      reads this
      requires Valid()
      ensures r.Some? <==> id in emailLogs
      ensures r.Some? ==> r.value.id == id && r.value.status != Pending && r.value == ResponseOf(emailLogs[id])
    {
      if id in emailLogs then Some(ResponseOf(emailLogs[id])) else None
    }

    /** `get_email_logs`; the bounds on `limit` are those of the HTTP route. */
    function GetEmailLogs(skip: nat, limit: nat): (r: seq<EmailResponse>)
      reads this
      requires Valid()
      requires 1 <= limit <= 100
      ensures |r| == if skip >= |order| then 0 else Min(limit, |order| - skip)
      ensures forall i :: 0 <= i < |r| ==> r[i] == ResponseOf(emailLogs[order[skip + i]])
    {
      var page := Page(Logs(), skip, limit);
      seq(|page|, i requires 0 <= i < |page| => ResponseOf(page[i]))
    }

    /** `get_email_stats`: nothing is ever pending, and every entry is either sent or failed. */
    function GetEmailStats(): (st: EmailStats)
      reads this
      requires Valid()
      ensures st.totalPending == 0
      ensures st.totalSent + st.totalFailed == |order|
    {
      var logs := Logs();
      StatusCountsPartition(logs);
      NoPendingCounted(logs);
      EmailStats(CountStatus(logs, Sent), CountStatus(logs, Failed), CountStatus(logs, Pending))
    }

    /** `process_kafka_event`: copy the event into a request and send it. */
    method ProcessKafkaEvent(e: KafkaEmailEvent, id: string, now: Timestamp, failure: Option<string>, jinja: Renderer)
      returns (resp: EmailResponse)
      requires Valid()
      requires id !in emailLogs
      modifies this
      ensures Valid()
      ensures order == old(order) + [id]
      ensures forall k :: k in old(emailLogs) ==> emailLogs[k] == old(emailLogs)[k]
      ensures var log := emailLogs[id];
        && log.toEmail == e.toEmail && log.toName == e.toName && log.subject == e.subject
        && log.body == SelectBody(ToRequest(e), jinja) && log.eventType == Some(e.eventType)
        && log.relatedUserId == e.relatedUserId && log.relatedProjectId == e.relatedProjectId
        && resp == ResponseOf(log)
      ensures resp.status != Pending
    {
      resp := SendEmail(ToRequest(e), id, now, failure, jinja);
    }
  }
}
