/** The triage rules of the inbox reader: which senders and subjects mark a
    message as a job-application mail, which message sequence numbers are
    fetched, and which fetched messages become saved job records. The IMAP
    connection is a parameter: the messages a fetch delivers are a sequence of
    possibly-nil messages. */
module EmailReader {
  import opened Wrappers
  import opened Strings

  /** IMAP sequence numbers and mailbox sizes are Go `uint32`. */
  newtype u32 = x: int | 0 <= x < 0x1_0000_0000

  /** Sender patterns that mark a career or recruiting mailer. */
  const CareerPatterns: seq<string> := [
    "linkedin.com",
    "indeed.com",
    "workdaymail.com",
    "jobs.noreply@",
    "myworkdayjobs.com",
    "glassdoor.com",
    "jobvite.com",
    "lever.co",
    "greenhouse.io",
    "careers@"
  ]

  /** Subject phrases that mark an application acknowledgement or rejection. */
  const JobPhrases: seq<string> := ["applied", "thank you", "application received", "we regret"]

  /** The sender used when a message has no usable From address. */
  const UnknownSender := "unknown"

  /** At most this many of the most recent messages are fetched. */
  const FetchCount: u32 := 1000

  // ---------------------------------------------------------------------------
  // Sender and subject predicates

  /** Some career pattern occurs in the lower-cased address. */
  predicate CareerAddress(address: string) {
    exists k :: 0 <= k < |CareerPatterns| && Contains(Lower(address), CareerPatterns[k])
  }

  /** `isCareerDomain`: scan the patterns in order, stopping at the first one
      that occurs in the lower-cased address. */
  method IsCareerDomain(address: string) returns (r: bool)
    ensures r <==> CareerAddress(address)
  {
    var lowered := Lower(address);
    for k := 0 to |CareerPatterns|
      invariant forall j :: 0 <= j < k ==> !Contains(lowered, CareerPatterns[j])
    {
      if Contains(lowered, CareerPatterns[k]) {
        return true;
      }
    }
    return false;
  }

  /** `isJobRelated`: the lower-cased subject contains one of the four
      phrases. */
  function IsJobRelated(subject: string): (r: bool)
    ensures r <==> exists k :: 0 <= k < |JobPhrases| && Contains(Lower(subject), JobPhrases[k])
  {
    var s := Lower(subject);
    assert JobPhrases[0] == "applied" && JobPhrases[1] == "thank you";
    assert JobPhrases[2] == "application received" && JobPhrases[3] == "we regret";
    Contains(s, "applied")
    || Contains(s, "thank you")
    || Contains(s, "application received")
    || Contains(s, "we regret")
  }

  /** The sender test ignores letter case. */
  lemma CareerAddressIgnoresCase(address: string)
    ensures CareerAddress(address) <==> CareerAddress(Lower(address))
  {
    LowerIdempotent(address);
  }

  /** The subject test ignores letter case. */
  lemma IsJobRelatedIgnoresCase(subject: string)
    ensures IsJobRelated(subject) <==> IsJobRelated(Lower(subject))
  {
    LowerIdempotent(subject);
  }

  /** A mixed-case recruiting address is recognised: an address holding
      "Careers@" anywhere passes the sender test. */
  lemma MixedCaseSender(address: string, i: int)
    requires OccursAt(address, "Careers@", i)
    ensures CareerAddress(address)
  {
    var lowered := Lower(address);
    forall m | 0 <= m < 8 ensures lowered[i + m] == "careers@"[m] {
      assert address[i + m] == "Careers@"[m];
    }
    assert lowered[i..i + 8] == "careers@";
    assert OccursAt(lowered, CareerPatterns[9], i);
  }

  /** A mixed-case acknowledgement is recognised: a subject holding
      "Thank You" anywhere passes the subject test. */
  lemma MixedCaseSubject(subject: string, i: int)
    requires OccursAt(subject, "Thank You", i)
    ensures IsJobRelated(subject)
  {
    var lowered := Lower(subject);
    forall m | 0 <= m < 9 ensures lowered[i + m] == "thank you"[m] {
      assert subject[i + m] == "Thank You"[m];
    }
    assert lowered[i..i + 9] == "thank you";
    assert OccursAt(lowered, JobPhrases[1], i);
  }

  /** The fallback sender is never taken for a career mailer: every pattern
      is longer than "unknown". */
  lemma UnknownIsNotCareer()
    ensures !CareerAddress(UnknownSender)
  {
    forall k | 0 <= k < |CareerPatterns|
      ensures !Contains(Lower(UnknownSender), CareerPatterns[k])
    {
      NotContainsLonger(Lower(UnknownSender), CareerPatterns[k]);
    }
  }

  // ---------------------------------------------------------------------------
  // Fetch window

  /** The inclusive range of sequence numbers requested from the server. */
  datatype Window = Window(from: u32, to: u32)

  /** The range fetched from a mailbox holding `messages` messages: none when
      the mailbox is empty, otherwise the last `min(messages, 1000)`. */
  function FetchWindow(messages: u32): (w: Option<Window>)
    ensures w.None? <==> messages == 0
    ensures w.Some? ==> w.value.to == messages && 1 <= w.value.from <= messages
    ensures w.Some? ==> (w.value.to - w.value.from + 1) as int
                        == if messages <= FetchCount then messages as int else FetchCount as int
    ensures w.Some? && messages <= FetchCount ==> w.value.from == 1
    ensures w.Some? && messages > FetchCount ==> w.value.from as int == messages as int - 999
  {
    if messages == 0 then None
    else
      var from: u32 := if messages > FetchCount then messages - FetchCount + 1 else 1;
      Some(Window(from, messages))
  }

  // ---------------------------------------------------------------------------
  // Messages and job records

  /** The envelope of a fetched message; `date` is the already formatted
      `2006-01-02` date. */
  datatype Envelope = Envelope(messageId: string, date: string)

  /** A parsed header: the subject and the From address list, whose entries
      may be nil. */
  datatype Header = Header(subject: string, from: seq<Option<string>>)

  /** A fetched body section: either it parses as a mail message or
      `CreateReader` fails on it. */
  datatype Body = Unparseable | Parsed(header: Header)

  /** A fetched message with its possibly-nil envelope and body. */
  datatype Message = Message(envelope: Option<Envelope>, body: Option<Body>)

  /** The record handed to `SaveJob`. */
  datatype Job = Job(company: string, title: string, status: string, emailId: string, date: string)

  /** The address a message is attributed to: the first entry of the From list,
      or "unknown" when the list is empty or its first entry is nil. */
  function FromAddress(from: seq<Option<string>>): (r: string)
    ensures |from| == 0 || from[0].None? ==> r == UnknownSender
    ensures |from| > 0 && from[0].Some? ==> r == from[0].value
  {
    if |from| > 0 && from[0].Some? then from[0].value else UnknownSender
  }

  /** A message with no usable sender is never saved as a job. */
  lemma NoSenderNotCareer(from: seq<Option<string>>)
    requires |from| == 0 || from[0].None?
    ensures !CareerAddress(FromAddress(from))
  {
    UnknownIsNotCareer();
  }

  /** The message survives every skip of the loop: it is not nil, has an
      envelope, has a body and the body parses. */
  predicate Readable(item: Option<Message>) {
    item.Some? && item.value.envelope.Some? && item.value.body.Some? && item.value.body.value.Parsed?
  }

  /** What one fetched item contributes: the job record saved for it, if any. */
  function Triage(item: Option<Message>): (r: Option<Job>)
    ensures r.Some? <==>
              Readable(item)
              && IsJobRelated(item.value.body.value.header.subject)
              && CareerAddress(FromAddress(item.value.body.value.header.from))
    ensures r.Some? ==>
              && r.value.company == "Unknown"
              && r.value.status == "Applied"
              && r.value.title == item.value.body.value.header.subject
              && r.value.emailId == item.value.envelope.value.messageId
              && r.value.date == item.value.envelope.value.date
  {
    match item
    case None => None
    case Some(msg) =>
      if msg.envelope.None? || msg.body.None? || msg.body.value.Unparseable? then None
      else
        var header := msg.body.value.header;
        if IsJobRelated(header.subject) && CareerAddress(FromAddress(header.from)) then
          Some(Job("Unknown", header.subject, "Applied", msg.envelope.value.messageId, msg.envelope.value.date))
        else None
  }

  /** The records saved for a stream of fetched items, in arrival order. */
  function SavedJobs(stream: seq<Option<Message>>): (r: seq<Job>)
    ensures |r| <= |stream|
    ensures forall j :: 0 <= j < |r| ==> r[j].company == "Unknown" && r[j].status == "Applied"
  {
    if stream == [] then []
    else
      var last := Triage(stream[|stream| - 1]);
      SavedJobs(stream[..|stream| - 1]) + if last.Some? then [last.value] else []
  }

  /** Saving distributes over concatenation of streams. */
  lemma {:induction false} SavedJobsAppend(a: seq<Option<Message>>, b: seq<Option<Message>>)
    ensures SavedJobs(a + b) == SavedJobs(a) + SavedJobs(b)
    decreases |b|
  {
    if b == [] {
      assert a + b == a;
    } else {
      var b' := b[..|b| - 1];
      assert (a + b)[..|a + b| - 1] == a + b';
      assert (a + b)[|a + b| - 1] == b[|b| - 1];
      SavedJobsAppend(a, b');
    }
  }

  /** A record is saved exactly when some fetched item triages to it. */
  lemma {:induction false} SavedJobsExactly(stream: seq<Option<Message>>, job: Job)
    ensures job in SavedJobs(stream) <==> exists i :: 0 <= i < |stream| && Triage(stream[i]) == Some(job)
  {
    if stream != [] {
      var init := stream[..|stream| - 1];
      SavedJobsExactly(init, job);
      if job in SavedJobs(init) {
        var i :| 0 <= i < |init| && Triage(init[i]) == Some(job);
        assert stream[i] == init[i];
      }
      if exists i :: 0 <= i < |stream| && Triage(stream[i]) == Some(job) {
        var i :| 0 <= i < |stream| && Triage(stream[i]) == Some(job);
        if i < |init| {
          assert init[i] == stream[i];
        }
      }
    }
  }

  /** Every saved record comes from a readable, job-related message of a career
      sender, and carries its subject and message id. */
  lemma SavedJobJustified(stream: seq<Option<Message>>, job: Job)
    requires job in SavedJobs(stream)
    ensures job.company == "Unknown" && job.status == "Applied"
    ensures IsJobRelated(job.title)
    ensures exists i :: 0 <= i < |stream| && Readable(stream[i])
              && job.title == stream[i].value.body.value.header.subject
              && job.emailId == stream[i].value.envelope.value.messageId
              && CareerAddress(FromAddress(stream[i].value.body.value.header.from))
  {
    SavedJobsExactly(stream, job);
    var i :| 0 <= i < |stream| && Triage(stream[i]) == Some(job);
  }

  /** The body of the `CheckInbox` receive loop: every received item is
      counted, nil messages, nil envelopes, missing and unparseable bodies are
      skipped, and a job record is saved when the subject is job-related and
      the sender is a career mailer. `saved` lists the `SaveJob` calls in
      order. */
  method ProcessMessages(stream: seq<Option<Message>>) returns (emailCount: nat, saved: seq<Job>)
    ensures emailCount == |stream|
    ensures saved == SavedJobs(stream)
  {
    emailCount := 0;
    saved := [];
    for i := 0 to |stream|
      invariant emailCount == i
      invariant saved == SavedJobs(stream[..i])
    {
      assert stream[..i + 1][..i] == stream[..i];
      var msg := stream[i];
      emailCount := emailCount + 1;
      if msg.None? {
        continue;
      }
      if msg.value.envelope.None? {
        continue;
      }
      var body := msg.value.body;
      if body.None? {
        continue;
      }
      if body.value.Unparseable? {
        continue;
      }
      var header := body.value.header;
      var fromAddress := FromAddress(header.from);
      if IsJobRelated(header.subject) {
        var career := IsCareerDomain(fromAddress);
        if career {
          var job := Job("Unknown", header.subject, "Applied",
                         msg.value.envelope.value.messageId, msg.value.envelope.value.date);
          saved := saved + [job];
        }
      }
    }
    assert stream[..|stream|] == stream;
  }

  /** `CheckInbox` after login: nothing is fetched from an empty mailbox;
      otherwise the fetch window is requested from `fetch` (the IMAP server)
      and what it delivers is processed. */
  method CheckInbox(mailboxSize: u32, fetch: Window -> seq<Option<Message>>)
    returns (emailCount: nat, saved: seq<Job>)
    ensures mailboxSize == 0 ==> emailCount == 0 && saved == []
    ensures mailboxSize > 0 ==>
              var w := FetchWindow(mailboxSize).value;
              emailCount == |fetch(w)| && saved == SavedJobs(fetch(w))
  {
    var window := FetchWindow(mailboxSize);
    if window.None? {
      return 0, [];
    }
    emailCount, saved := ProcessMessages(fetch(window.value));
  }
}
