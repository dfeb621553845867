/** The Node.js email service: template substitution, the HTML body, the
    recipient header, and the newest-first email log with running counters. */
module NodeEmailServices {
  import opened Common
  import opened Sequences
  import opened TextReplace

  datatype LogStatus = Sent | Failed

  /** The argument of `sendEmail`. `templateData` is `Some(entries)` when
      `template_data` is a truthy object, its entries in `Object.entries` order. */
  datatype SendRequest = SendRequest(
    toEmail: string,
    toName: Option<string>,
    subject: string,
    body: string,
    templateData: Option<seq<(string, string)>>,
    eventType: Option<string>,
    relatedUserId: Option<string>,
    relatedProjectId: Option<string>)

  /** The message handed to the mail transport. */
  datatype MailOptions = MailOptions(from: string, to: string, subject: string, html: string, text: string)

  /** What the transport's `sendMail` does with a message: it is delivered
      (with the transport's message id) or it throws an error with a message. */
  datatype Delivery = Delivered(messageId: string) | Rejected(errorMessage: string)

  type Transport = MailOptions -> Delivery

  /** One entry of `emailLogs`; unlike the Python service it holds no body. */
  datatype EmailLog = EmailLog(
    id: string,
    toEmail: string,
    toName: Option<string>,
    subject: string,
    status: LogStatus,
    createdAt: Timestamp,
    sentAt: Option<Timestamp>,
    messageId: Option<string>,
    eventType: Option<string>,
    relatedUserId: Option<string>,
    relatedProjectId: Option<string>,
    errorMessage: Option<string>)

  datatype Stats = Stats(totalSent: nat, totalFailed: nat, totalPending: nat)

  /** The marker that `processTemplate` looks for for `key`. */
  function Placeholder(key: string): (p: string)
    ensures |p| == |key| + 4
    ensures p[..2] == "{{" && p[2..|p| - 2] == key && p[|p| - 2..] == "}}"
  {
    "{{" + key + "}}"
  }

  /** The template with each entry's placeholder replaced everywhere by its
      value, one entry after the other, in entry order. */
  function Substituted(t: string, data: seq<(string, string)>): string
    decreases |data|
  {
    if data == [] then t
    else Substituted(ReplaceAll(t, Placeholder(data[0].0), data[0].1), data[1..])
  }

  /** Substituting `a` and then `b` is substituting `a + b`. */
  lemma {:induction false} SubstitutedSequential(t: string, a: seq<(string, string)>, b: seq<(string, string)>)
    ensures Substituted(t, a + b) == Substituted(Substituted(t, a), b)
    decreases |a|
  {
    if a == [] {
      assert a + b == b;
    } else {
      assert (a + b)[0] == a[0] && (a + b)[1..] == a[1..] + b;
      SubstitutedSequential(ReplaceAll(t, Placeholder(a[0].0), a[0].1), a[1..], b);
    }
  }

  /** Keys whose placeholder does not occur in the template change nothing. */
  lemma {:induction false} SubstitutedUnusedKeys(t: string, data: seq<(string, string)>)
    requires NoPlaceholderIn(t, data)
    ensures Substituted(t, data) == t
  {
    if data != [] {
      ReplaceAllAbsent(t, Placeholder(data[0].0), data[0].1);
      assert forall i :: 0 <= i < |data[1..]| ==> data[1..][i] == data[i + 1];
      SubstitutedUnusedKeys(t, data[1..]);
    }
  }

  /** No entry's placeholder occurs in the template. */
  predicate NoPlaceholderIn(t: string, data: seq<(string, string)>)
  {
    forall i :: 0 <= i < |data| ==> !Contains(t, Placeholder(data[i].0))
  }

  /** Entries whose value is their own placeholder change nothing. */
  lemma {:induction false} SubstitutedSelfValues(t: string, data: seq<(string, string)>)
    requires forall i :: 0 <= i < |data| ==> data[i].1 == Placeholder(data[i].0)
    ensures Substituted(t, data) == t
  {
    if data != [] {
      assert forall i :: 0 <= i < |data[1..]| ==> data[1..][i] == data[i + 1];
      SubstitutedSelfValues(t, data[1..]);
    }
  }

  /** `processTemplate`: the loop over the entries of the template data. */
  method ProcessTemplate(template: string, data: seq<(string, string)>) returns (processed: string)
    ensures processed == Substituted(template, data)
  {
    processed := template;
    for i := 0 to |data|
      invariant Substituted(processed, data[i..]) == Substituted(template, data)
    {
      var (key, value) := data[i];
      assert data[i..][0] == data[i] && data[i..][1..] == data[i + 1..];
      processed := ReplaceAll(processed, Placeholder(key), value);
    }
  }

  /** `formatEmailBody`: every line break becomes `<br>`. */
  function FormatEmailBody(body: string): (html: string)
    ensures '\n' !in html
    ensures '\n' !in body ==> html == body
    ensures |html| == |body| + 3 * Occurrences(body, '\n')
  {
    ReplaceAllOneChar(body, '\n', "<br>");
    ReplaceCharRemoves(body, '\n', "<br>");
    ReplaceCharLength(body, '\n', "<br>");
    ReplaceCharAbsent(body, '\n', "<br>");
    ReplaceAll(body, "\n", "<br>")
  }

  /** A text free of `<` and line breaks begins the formatted body only where it
      begins the body itself. */
  lemma {:induction false} PlainPrefix(x: string, w: string)
    requires '\n' !in w && '<' !in w
    ensures var y := ReplaceChar(x, '\n', "<br>");
      |w| <= |y| && y[..|w|] == w ==> |w| <= |x| && x[..|w|] == w
  {
    if w != [] && x != [] {
      var y := ReplaceChar(x, '\n', "<br>");
      if x[0] == '\n' {
        assert y[0] == '<' && w[0] in w;
      } else {
        assert y == [x[0]] + ReplaceChar(x[1..], '\n', "<br>");
        assert forall c :: c in w[1..] ==> c in w;
        PlainPrefix(x[1..], w[1..]);
      }
    }
  }

  /** The HTML body gives back the text body when every `<br>` in it is turned
      back into a line break, provided the text body held no `<br>` of its own. */
  lemma {:induction false} FormatEmailBodyRoundTrip(body: string)
    requires !Contains(body, "<br>")
    ensures ReplaceAll(FormatEmailBody(body), "<br>", "\n") == body
  {
    ReplaceAllOneChar(body, '\n', "<br>");
    BreaksBackToNewlines(body);
  }

  lemma {:induction false} BreaksBackToNewlines(s: string)
    requires !Contains(s, "<br>")
    ensures ReplaceAll(ReplaceChar(s, '\n', "<br>"), "<br>", "\n") == s
  {
    if s != [] {
      var t := ReplaceChar(s[1..], '\n', "<br>");
      assert !Contains(s[1..], "<br>");
      BreaksBackToNewlines(s[1..]);
      if s[0] == '\n' {
        assert ReplaceChar(s, '\n', "<br>") == "<br>" + t;
        assert ("<br>" + t)[..4] == "<br>" && ("<br>" + t)[4..] == t;
      } else {
        var u := [s[0]] + t;
        assert ReplaceChar(s, '\n', "<br>") == u;
        if |u| >= 4 {
          assert u[..4] == [s[0]] + t[..3];
          PlainPrefix(s[1..], "br>");
          assert |s| >= 4 ==> s[..4] == [s[0]] + s[1..][..3];
          assert u[1..] == t;
        }
      }
    }
  }

  /** `"<name>" <<email>>`. */
  function NamedAddress(name: string, email: string): string
  {
    "\"" + name + "\" <" + email + ">"
  }

  /** The `to` header: the quoted name and the address in angle brackets when
      `to_name` is truthy, the bare address otherwise. */
  function Recipient(toName: Option<string>, toEmail: string): (to: string)
    ensures !TruthyString(toName) ==> to == toEmail
    ensures TruthyString(toName) ==>
      var n := |toName.value|;
      && |to| == n + |toEmail| + 5
      && to[0] == '"' && to[1..n + 1] == toName.value && to[n + 1..n + 4] == "\" <"
      && to[n + 4..|to| - 1] == toEmail && to[|to| - 1] == '>'
  {
    if TruthyString(toName) then NamedAddress(toName.value, toEmail) else toEmail
  }

  /** The text body: substituted when there is template data, as given otherwise;
      so the body passes through unchanged unless some entry's placeholder occurs in it. */
  function ProcessedBody(req: SendRequest): (text: string)
    ensures req.templateData.None? ==> text == req.body
    ensures req.templateData.Some? && NoPlaceholderIn(req.body, req.templateData.value) ==> text == req.body
  {
    match req.templateData
    case None => req.body
    case Some(data) =>
      assert NoPlaceholderIn(req.body, data) ==> Substituted(req.body, data) == req.body by {
        if NoPlaceholderIn(req.body, data) {
          SubstitutedUnusedKeys(req.body, data);
        }
      }
      Substituted(req.body, data)
  }

  /** The message `sendEmail` hands to the transport. */
  function MailOptionsFor(req: SendRequest, fromName: string, fromEmail: string): (m: MailOptions)
    ensures m.from == NamedAddress(fromName, fromEmail) && m.subject == req.subject
    ensures m.html == FormatEmailBody(m.text) && m.to == Recipient(req.toName, req.toEmail)
    ensures req.templateData.None? || NoPlaceholderIn(req.body, req.templateData.value) ==> m.text == req.body
  {
    var text := ProcessedBody(req);
    MailOptions(NamedAddress(fromName, fromEmail), Recipient(req.toName, req.toEmail), req.subject,
                FormatEmailBody(text), text)
  }

  /** The number of entries with status `st`. */
  function CountStatus(logs: seq<EmailLog>, st: LogStatus): (c: nat)
    ensures c <= |logs|
  {
    if logs == [] then 0 else (if logs[0].status == st then 1 else 0) + CountStatus(logs[1..], st)
  }

  /** Every entry is either sent or failed. */
  lemma {:induction false} SentAndFailedCoverLog(logs: seq<EmailLog>)
    ensures CountStatus(logs, Sent) + CountStatus(logs, Failed) == |logs|
  {
    if logs != [] {
      SentAndFailedCoverLog(logs[1..]);
    }
  }

  class EmailService {
    /** `config.SMTP.FROM_NAME` and `config.SMTP.FROM_EMAIL`. */
    const fromName: string
    const fromEmail: string
    /** `this.emailLogs`, newest first. */
    var emailLogs: seq<EmailLog>
    /** `this.stats`. */
    var stats: Stats

    /** The counters are the counts of the log, and nothing is pending. */
    ghost predicate Valid()
      reads this
    {
      && stats.totalSent == CountStatus(emailLogs, Sent)
      && stats.totalFailed == CountStatus(emailLogs, Failed)
      && stats.totalPending == 0
    }

    constructor (fromName: string, fromEmail: string)
      ensures Valid()
      ensures this.fromName == fromName && this.fromEmail == fromEmail
      ensures emailLogs == [] && stats == Stats(0, 0, 0)
    {
      this.fromName := fromName;
      this.fromEmail := fromEmail;
      emailLogs := [];
      stats := Stats(0, 0, 0);
    }

    /** `sendEmail`. `id` stands for `uuidv4()`, `createdAt` and `sentAt` for the
        two clock readings, `transport` for the transporter's `sendMail`; `Err`
        is the error `sendEmail` rethrows. */
    method SendEmail(req: SendRequest, id: string, createdAt: Timestamp, sentAt: Timestamp, transport: Transport)
      returns (r: Result<EmailLog, string>)
      requires Valid()
      modifies this
      ensures Valid()
      ensures |emailLogs| == |old(emailLogs)| + 1 && emailLogs[1..] == old(emailLogs)
      ensures var delivery := transport(MailOptionsFor(req, fromName, fromEmail));
        var log := emailLogs[0];
        && log.id == id && log.toEmail == req.toEmail && log.toName == req.toName
        && log.subject == req.subject && log.createdAt == createdAt && log.eventType == req.eventType
        && log.relatedUserId == req.relatedUserId && log.relatedProjectId == req.relatedProjectId
        && (delivery.Delivered? ==>
              && log.status == Sent && log.sentAt == Some(sentAt)
              && log.messageId == Some(delivery.messageId) && log.errorMessage == None
              && stats == old(stats).(totalSent := old(stats).totalSent + 1)
              && r == Ok(log))
        && (delivery.Rejected? ==>
              && log.status == Failed && log.sentAt == None
              && log.messageId == None && log.errorMessage == Some(delivery.errorMessage)
              && stats == old(stats).(totalFailed := old(stats).totalFailed + 1)
              && r == Err(delivery.errorMessage))
    {
      var processed := req.body;
      if req.templateData.Some? {
        processed := ProcessTemplate(req.body, req.templateData.value);
      }
      var options := MailOptions(NamedAddress(fromName, fromEmail), Recipient(req.toName, req.toEmail),
                                 req.subject, FormatEmailBody(processed), processed);
      assert options == MailOptionsFor(req, fromName, fromEmail);
      var delivery := transport(options);
      var log;
      match delivery
      case Delivered(messageId) =>
        log := EmailLog(id, req.toEmail, req.toName, req.subject, Sent, createdAt, Some(sentAt),
                        Some(messageId), req.eventType, req.relatedUserId, req.relatedProjectId, None);
        emailLogs := [log] + emailLogs;
        stats := stats.(totalSent := stats.totalSent + 1);
        r := Ok(log);
      case Rejected(message) =>
        log := EmailLog(id, req.toEmail, req.toName, req.subject, Failed, createdAt, None,
                        None, req.eventType, req.relatedUserId, req.relatedProjectId, Some(message));
        emailLogs := [log] + emailLogs;
        stats := stats.(totalFailed := stats.totalFailed + 1);
        r := Err(message);
    }

    /** `getEmailLogs(limit)`: the `limit` most recent entries, newest first. */
    function GetEmailLogs(limit: nat): (r: seq<EmailLog>)
      reads this
      ensures |r| == Min(limit, |emailLogs|)
      ensures r == emailLogs[..|r|]
    {
      Page(emailLogs, 0, limit)
    }

    /** `getStats`: the counters account for every entry, and none is pending. */
    function GetStats(): (st: Stats)
      reads this
      requires Valid()
      ensures st.totalSent + st.totalFailed == |emailLogs|
      ensures st.totalPending == 0
    {
      SentAndFailedCoverLog(emailLogs);
      stats
    }
  }
}
