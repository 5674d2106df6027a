/** The decision logic of the current server's tools and resources
    (`src/server.py`), with every provider call a parameter and the written file
    represented by its name and its content. */
module Tools {
  import opened Wrappers
  import opened Strings
  import opened Batch
  import opened Filename
  import opened Dates
  import opened Query
  import opened Mime
  import opened Metadata
  import opened Markdown

  /** One entry of `get_labels`; both keys are read with `.get`. */
  datatype Label = Label(id: Option<string>, name: Option<string>)

  /** The provider as the tools see it, each call a total function of its
      arguments whose failure is the message of the exception it raises:
      `list` is `list_messages` for a query (the ids of the matches, in the
      provider's order), `fetch` is `get_message`, `thread` the `messages` of
      `get_thread`, `labels` the answer of `get_labels`, `modifyLabels` is
      `modify_message_labels(message id, remove, add)` and `attachment` is
      `get_attachment_data(message id, attachment id)`. */
  datatype Provider = Provider(
    list: string -> Result<seq<string>>,
    fetch: string -> Result<Message>,
    thread: string -> Result<seq<Message>>,
    labels: Result<seq<Label>>,
    modifyLabels: (string, seq<string>, seq<string>) -> Result<()>,
    attachment: (string, string) -> Result<seq<bv8>>)

  /** A message with its plain-text body: `get_message` then `parse_message_body`. */
  function Load(env: Env, p: Provider, id: string): (r: Result<(Message, string)>)
    ensures p.fetch(id).Failure? ==> r == Failure(p.fetch(id).error)
    ensures p.fetch(id).Success? ==> r == match ExtractBody(env.decode, p.fetch(id).value.payload)
      case Success(body) => Success((p.fetch(id).value, body))
      case Failure(e) => Failure(e)
  {
    var m :- p.fetch(id);
    var body :- ExtractBody(env.decode, m.payload);
    Success((m, body))
  }

  // ---------------------------------------------------------------------------
  // Resources

  /** `gmail://messages/{message_id}`: the message document of one message. */
  function MessageResource(env: Env, p: Provider, id: string): (r: Result<string>)
    ensures r.Success? <==> Load(env, p, id).Success?
    ensures r.Failure? ==> r.error == Load(env, p, id).error
    ensures r.Success? ==> r.value == EmailMarkdown(env, Load(env, p, id).value.0, id, Load(env, p, id).value.1)
  {
    var (m, body) :- Load(env, p, id);
    Success(EmailMarkdown(env, m, id, body))
  }

  /** A message of a thread with its body. */
  function WithBody(env: Env, m: Message): (r: Result<(Message, string)>)
    ensures r.Success? <==> ExtractBody(env.decode, m.payload).Success?
    ensures r.Success? ==> r.value == (m, ExtractBody(env.decode, m.payload).value)
  {
    var body :- ExtractBody(env.decode, m.payload);
    Success((m, body))
  }

  /** `i` is the first message of `ms` whose body cannot be parsed. */
  ghost predicate FirstBadBody(env: Env, ms: seq<Message>, i: int) {
    && 0 <= i < |ms|
    && ExtractBody(env.decode, ms[i].payload).Failure?
    && forall j :: 0 <= j < i ==> ExtractBody(env.decode, ms[j].payload).Success?
  }

  /** The bodies of all messages of a thread; the first failing body aborts. */
  function WithBodies(env: Env, ms: seq<Message>): (r: Result<seq<(Message, string)>>)
    ensures r.Success? <==> forall i :: 0 <= i < |ms| ==> ExtractBody(env.decode, ms[i].payload).Success?
    ensures r.Success? ==> |r.value| == |ms| && forall i :: 0 <= i < |ms| ==>
      r.value[i] == (ms[i], ExtractBody(env.decode, ms[i].payload).value)
    ensures r.Failure? ==> exists i :: FirstBadBody(env, ms, i) && r.error == ExtractBody(env.decode, ms[i].payload).error
  {
    var f := (m: Message) => WithBody(env, m);
    assert forall i :: 0 <= i < |ms| ==> f(ms[i]) == WithBody(env, ms[i]);
    match FailFast(f, ms)
    case Success(mbs) => Success(mbs)
    case Failure(e) =>
      ghost var k :| FirstFailure(f, ms, k) && e == f(ms[k]).error;
      assert FirstBadBody(env, ms, k);
      Failure(e)
  }

  /** `gmail://threads/{thread_id}`: the thread document. Unlike the tool, the
      resource does not refuse an empty thread; it renders the stub. */
  function ThreadResource(env: Env, p: Provider, threadId: string): (r: Result<string>)
    ensures p.thread(threadId).Failure? ==> r == Failure(p.thread(threadId).error)
    ensures p.thread(threadId) == Success([]) ==> r == Success(ThreadMarkdown(env, threadId, []))
    ensures p.thread(threadId).Success? && WithBodies(env, p.thread(threadId).value).Failure? ==>
      r == Failure(WithBodies(env, p.thread(threadId).value).error)
    ensures p.thread(threadId).Success? && WithBodies(env, p.thread(threadId).value).Success? ==>
      r == Success(ThreadMarkdown(env, threadId, WithBodies(env, p.thread(threadId).value).value))
  {
    var ms :- p.thread(threadId);
    var mbs :- WithBodies(env, ms);
    Success(ThreadMarkdown(env, threadId, mbs))
  }

  // ---------------------------------------------------------------------------
  // search_emails

  /** The arguments of `search_emails` (`max_results` is left out). */
  datatype SearchRequest = SearchRequest(
    fromEmail: Option<string>,
    toEmail: Option<string>,
    subject: Option<string>,
    hasAttachment: bool,
    readStatus: Option<string>,
    afterDate: Option<string>,
    beforeDate: Option<string>,
    labelFilter: Option<string>,
    gmailQuery: Option<string>)

  /** What `search_emails` returns, together with the document it writes. */
  datatype SearchResult = SearchResult(
    fileName: string,
    content: string,
    sizeBytes: nat,
    matchCount: nat,
    query: string,
    metadataList: seq<EmailMetadata>)

  function DateError(field: string, value: string): string {
    field + " '" + value + "' is not in the required format YYYY/MM/DD"
  }

  const MixedQueryError: string :=
    "Cannot use both explicit parameters and gmail_query together. Please use either explicit parameters OR gmail_query, not both."

  const AllMessages: string := "all messages"

  /** A date bound that is given, non-empty and not a valid `YYYY/MM/DD` day. */
  predicate BadDate(d: Option<string>) {
    Filled(d) && !ValidateDate(d)
  }

  /** Some explicit parameter is neither `None` nor `False`: any string parameter
      that is present (even empty) or `has_attachment=True`. */
  predicate Explicit(req: SearchRequest) {
    || req.fromEmail.Some? || req.toEmail.Some? || req.subject.Some?
    || req.hasAttachment
    || req.readStatus.Some? || req.afterDate.Some? || req.beforeDate.Some? || req.labelFilter.Some?
  }

  /** The filters the structured path hands to the query builder. */
  function StructuredFilter(req: SearchRequest): Filter {
    Filter(
      if Filled(req.labelFilter) then Some([req.labelFilter.value]) else None,
      req.fromEmail, req.toEmail, req.subject, req.afterDate, req.beforeDate,
      Some(req.hasAttachment), None, None, None)
  }

  /** The query sent to the provider: the raw query, or the built one. */
  function SentQuery(req: SearchRequest): string {
    if Filled(req.gmailQuery) then req.gmailQuery.value
    else BuildQuery(req.readStatus, StructuredFilter(req))
  }

  function ReportedParts(req: SearchRequest): seq<string> {
    (if Filled(req.fromEmail) then ["from:" + req.fromEmail.value] else [])
      + (if Filled(req.toEmail) then ["to:" + req.toEmail.value] else [])
      + (if Filled(req.subject) then ["subject:" + req.subject.value] else [])
  }

  /** The query the result reports: the raw query verbatim, or a summary of the
      structured search naming only its sender, recipient and subject filters. */
  function ReportedQuery(req: SearchRequest): string {
    if Filled(req.gmailQuery) then req.gmailQuery.value
    else if |ReportedParts(req)| == 0 then AllMessages
    else Join(" ", ReportedParts(req))
  }

  /** One search match: its metadata and its message document. */
  function SearchItem(env: Env, p: Provider, id: string): (r: Result<(EmailMetadata, string)>)
    ensures r.Success? <==> Load(env, p, id).Success?
    ensures r.Failure? ==> r.error == Load(env, p, id).error
    ensures r.Success? ==>
      var (m, body) := Load(env, p, id).value;
      r.value == (BuildMetadata(env, m, id), EmailMarkdown(env, m, id, body))
  {
    var (m, body) :- Load(env, p, id);
    Success((BuildMetadata(env, m, id), EmailMarkdown(env, m, id, body)))
  }

  function Firsts<A, B>(ps: seq<(A, B)>): (r: seq<A>)
    ensures |r| == |ps| && forall i :: 0 <= i < |ps| ==> r[i] == ps[i].0
  {
    seq(|ps|, i requires 0 <= i < |ps| => ps[i].0)
  }

  function Seconds<A, B>(ps: seq<(A, B)>): (r: seq<B>)
    ensures |r| == |ps| && forall i :: 0 <= i < |ps| ==> r[i] == ps[i].1
  {
    seq(|ps|, i requires 0 <= i < |ps| => ps[i].1)
  }

  /** The file name of a results document. */
  function SearchFileName(query: string, count: nat): string {
    Sanitize("search_" + query + "_" + NatToString(count) + "_results.md")
  }

  /** The results of a search once the matches are listed: every match loaded by
      `item` in provider order, the first failure aborting, and the results
      document rendered for the reported query. */
  function Results(item: string -> Result<(EmailMetadata, string)>, query: string, ids: seq<string>)
    : (r: Result<SearchResult>)
    ensures r.Success? <==> forall i :: 0 <= i < |ids| ==> item(ids[i]).Success?
    ensures r.Failure? ==> exists i :: FirstFailure(item, ids, i) && r.error == item(ids[i]).error
    ensures r.Success? ==>
      && r.value.query == query
      && r.value.matchCount == |ids|
      && |r.value.metadataList| == |ids|
      && (forall i :: 0 <= i < |ids| ==> r.value.metadataList[i] == item(ids[i]).value.0)
      && r.value.content == SearchDocument(query,
           seq(|ids|, i requires 0 <= i < |ids| && item(ids[i]).Success? => item(ids[i]).value.1))
      && r.value.fileName == SearchFileName(query, |ids|)
      && r.value.sizeBytes == Utf8Length(r.value.content)
  {
    var items :- FailFast(item, ids);
    var docs := Seconds(items);
    assert docs == seq(|ids|, i requires 0 <= i < |ids| && item(ids[i]).Success? => item(ids[i]).value.1);
    var content := SearchDocument(query, docs);
    Success(SearchResult(SearchFileName(query, |ids|), content, Utf8Length(content), |ids|, query, Firsts(items)))
  }

  /** `search_emails`: validate the date bounds, refuse a raw query mixed with
      explicit parameters, list the matches of the one query chosen and render
      the results. */
  function SearchEmails(env: Env, p: Provider, req: SearchRequest): (r: Result<SearchResult>)
    ensures BadDate(req.afterDate) ==> r == Failure(DateError("after_date", req.afterDate.value))
    ensures !BadDate(req.afterDate) && BadDate(req.beforeDate) ==>
      r == Failure(DateError("before_date", req.beforeDate.value))
    ensures !BadDate(req.afterDate) && !BadDate(req.beforeDate) && Filled(req.gmailQuery) && Explicit(req) ==>
      r == Failure(MixedQueryError)
    ensures (&& !BadDate(req.afterDate) && !BadDate(req.beforeDate) && !(Filled(req.gmailQuery) && Explicit(req))
             && p.list(SentQuery(req)).Failure?) ==> r == Failure(p.list(SentQuery(req)).error)
    ensures (&& !BadDate(req.afterDate) && !BadDate(req.beforeDate) && !(Filled(req.gmailQuery) && Explicit(req))
             && p.list(SentQuery(req)).Success?) ==>
      r == Results((id: string) => SearchItem(env, p, id), ReportedQuery(req), p.list(SentQuery(req)).value)
  {
    if BadDate(req.afterDate) then Failure(DateError("after_date", req.afterDate.value))
    else if BadDate(req.beforeDate) then Failure(DateError("before_date", req.beforeDate.value))
    else if Filled(req.gmailQuery) && Explicit(req) then Failure(MixedQueryError)
    else
      var ids :- p.list(SentQuery(req));
      Results((id: string) => SearchItem(env, p, id), ReportedQuery(req), ids)
  }

  /** The raw and the structured forms are never merged: with a non-empty raw
      query, a successful search sent exactly that query, reports it verbatim and
      had no explicit parameter. */
  lemma RawQueryNeverMerged(env: Env, p: Provider, req: SearchRequest)
    requires Filled(req.gmailQuery)
    requires SearchEmails(env, p, req).Success?
    ensures !Explicit(req)
    ensures SentQuery(req) == req.gmailQuery.value
    ensures SearchEmails(env, p, req).value.query == req.gmailQuery.value
  {
  }

  /** `has_attachment=False` alongside a raw query is allowed; an empty subject is
      not, since only `None` counts as absent. */
  lemma MixedQueryExamples()
    ensures var raw := SearchRequest(None, None, None, false, None, None, None, None, Some("is:starred"));
      && !Explicit(raw)
      && Explicit(raw.(subject := Some("")))
      && Explicit(raw.(hasAttachment := true))
  {
  }

  /** On the structured path the reported query consists of exactly the sender,
      recipient and subject clauses of the query sent, and is `all messages`
      when there are none; read status, dates, label and attachment filter never
      show. */
  lemma ReportedQueryShowsFromToSubject(req: SearchRequest)
    requires !Filled(req.gmailQuery)
    ensures var cs := Clauses(req.readStatus, StructuredFilter(req));
      var shown := Select(cs, 2) + Select(cs, 3) + Select(cs, 4);
      ReportedQuery(req) == if |shown| == 0 then AllMessages else Join(" ", Parts(shown))
  {
    var f := StructuredFilter(req);
    var cs := Clauses(req.readStatus, f);
    assert Select(cs, 2) == Segment(f, 2) by { SelectKind(req.readStatus, f, 2); }
    assert Select(cs, 3) == Segment(f, 3) by { SelectKind(req.readStatus, f, 3); }
    assert Select(cs, 4) == Segment(f, 4) by { SelectKind(req.readStatus, f, 4); }
    ShownParts(req);
  }

  /** The sender, recipient and subject groups render as the reported parts. */
  lemma ShownParts(req: SearchRequest)
    ensures var f := StructuredFilter(req);
      Parts(Segment(f, 2) + Segment(f, 3) + Segment(f, 4)) == ReportedParts(req)
  {
    var f := StructuredFilter(req);
    PartsAppend(Segment(f, 2) + Segment(f, 3), Segment(f, 4));
    PartsAppend(Segment(f, 2), Segment(f, 3));
    assert Parts(Segment(f, 2)) == (if Filled(req.fromEmail) then ["from:" + req.fromEmail.value] else []);
    assert Parts(Segment(f, 3)) == (if Filled(req.toEmail) then ["to:" + req.toEmail.value] else []);
    assert Parts(Segment(f, 4)) == (if Filled(req.subject) then ["subject:" + req.subject.value] else []);
  }

  /** The reported query does not depend on the filters it leaves out. */
  lemma ReportedQueryIgnores(req: SearchRequest, readStatus: Option<string>, after: Option<string>,
                             before: Option<string>, labelFilter: Option<string>, hasAttachment: bool)
    requires !Filled(req.gmailQuery)
    ensures ReportedQuery(req) == ReportedQuery(req.(readStatus := readStatus, afterDate := after,
      beforeDate := before, labelFilter := labelFilter, hasAttachment := hasAttachment))
  {
    var other := req.(readStatus := readStatus, afterDate := after, beforeDate := before, labelFilter := labelFilter,
      hasAttachment := hasAttachment);
    assert ReportedParts(req) == ReportedParts(other);
  }

  /** The results document states the query and the number of matches. */
  lemma ResultsReadBack(item: string -> Result<(EmailMetadata, string)>, query: string, ids: seq<string>)
    requires Results(item, query, ids).Success? && SingleLine(query)
    ensures var res := Results(item, query, ids).value;
      var ls := Split(res.content, '\n');
      && |ls| >= 7
      && ls[2] == Field("Query", res.query)
      && ls[3] == Field("Results", NatToString(res.matchCount) + " emails")
  {
    SearchDocumentReadBack(query, seq(|ids|, i requires 0 <= i < |ids| && item(ids[i]).Success? => item(ids[i]).value.1));
  }

  /** The document a successful search writes agrees with the record it returns:
      it states the reported query and the number of matches. */
  lemma SearchEmailsReadBack(env: Env, p: Provider, req: SearchRequest)
    requires SearchEmails(env, p, req).Success?
    requires SingleLine(SearchEmails(env, p, req).value.query)
    ensures var res := SearchEmails(env, p, req).value;
      var ls := Split(res.content, '\n');
      && |ls| >= 7
      && ls[2] == Field("Query", res.query)
      && ls[3] == Field("Results", NatToString(res.matchCount) + " emails")
  {
    ResultsReadBack((id: string) => SearchItem(env, p, id), ReportedQuery(req), p.list(SentQuery(req)).value);
  }

  // ---------------------------------------------------------------------------
  // get_emails

  /** One downloaded message: the file name, the document written, its UTF-8 size
      and the metadata (`EmailDownloadResult`). */
  datatype EmailDownload = EmailDownload(fileName: string, content: string, sizeBytes: nat, metadata: EmailMetadata)

  const NoIdsError: string := "No message IDs provided."

  function DownloadError(id: string, e: string): string {
    "Failed to download email " + id + ": " + e
  }

  /** One iteration of `get_emails`; any failure is reported naming the id. */
  function DownloadEmail(env: Env, p: Provider, id: string): (r: Result<EmailDownload>)
    ensures r.Success? <==> Load(env, p, id).Success?
    ensures r.Failure? ==> r.error == DownloadError(id, Load(env, p, id).error)
    ensures r.Success? ==>
      var (m, body) := Load(env, p, id).value;
      && r.value.metadata == BuildMetadata(env, m, id)
      && r.value.content == EmailMarkdown(env, m, id, body)
      && r.value.fileName == Sanitize("email_" + id + "_" + r.value.metadata.subject + ".md")
      && r.value.sizeBytes == Utf8Length(r.value.content)
  {
    match Load(env, p, id)
    case Failure(e) => Failure(DownloadError(id, e))
    case Success((m, body)) =>
      var md := BuildMetadata(env, m, id);
      var content := EmailMarkdown(env, m, id, body);
      Success(EmailDownload(Sanitize("email_" + id + "_" + md.subject + ".md"), content, Utf8Length(content), md))
  }

  /** `get_emails`: refuse an empty list; otherwise download every id in order,
      the first failure aborting the whole call. */
  function GetEmails(env: Env, p: Provider, ids: seq<string>): (r: Result<seq<EmailDownload>>)
    ensures |ids| == 0 ==> r == Failure(NoIdsError)
    ensures |ids| > 0 ==> (r.Success? <==> forall i :: 0 <= i < |ids| ==> Load(env, p, ids[i]).Success?)
    ensures r.Success? ==> |r.value| == |ids| && forall i :: 0 <= i < |ids| ==>
      && DownloadEmail(env, p, ids[i]) == Success(r.value[i])
      && r.value[i].metadata.id == ids[i]
    ensures |ids| > 0 && r.Failure? ==> exists i ::
      && 0 <= i < |ids|
      && Load(env, p, ids[i]).Failure?
      && (forall j :: 0 <= j < i ==> Load(env, p, ids[j]).Success?)
      && r.error == DownloadError(ids[i], Load(env, p, ids[i]).error)
  {
    if |ids| == 0 then Failure(NoIdsError)
    else
      var f := (id: string) => DownloadEmail(env, p, id);
      var r := FailFast(f, ids);
      assert forall i :: 0 <= i < |ids| ==> f(ids[i]) == DownloadEmail(env, p, ids[i]);
      r
  }

  // ---------------------------------------------------------------------------
  // get_thread

  /** What `get_thread` returns, together with the document it writes. */
  datatype ThreadDownload = ThreadDownload(
    fileName: string,
    content: string,
    sizeBytes: nat,
    messageCount: nat,
    threadId: string,
    subject: string,
    dateRange: string)

  function EmptyThreadError(threadId: string): string {
    "No messages found in thread " + threadId
  }

  /** The raw `Date` header of a message, `Unknown` when it has none. */
  function DateOf(m: Message): (r: string)
    ensures NoHeader(m.headers, "Date") ==> r == Unknown
    ensures !NoHeader(m.headers, "Date") ==> LastValueIs(m.headers, "Date", r)
  {
    HeaderOrLastWins(m, "Date", Unknown);
    HeaderOr(m, "Date", Unknown)
  }

  /** The thread's date range: a single date for one message, otherwise
      `<first> to <last>`. */
  function DateRange(ms: seq<Message>): (r: string)
    requires |ms| > 0
    ensures |ms| == 1 ==> r == DateOf(ms[0])
    ensures |ms| > 1 ==> r == DateOf(ms[0]) + " to " + DateOf(ms[|ms| - 1])
  {
    if |ms| > 1 then DateOf(ms[0]) + " to " + DateOf(ms[|ms| - 1]) else DateOf(ms[0])
  }

  /** The thread's subject: the first message's, `No Subject` when it has none. */
  function ThreadSubject(ms: seq<Message>): (r: string)
    requires |ms| > 0
    ensures NoHeader(ms[0].headers, "Subject") ==> r == NoSubject
    ensures !NoHeader(ms[0].headers, "Subject") ==> LastValueIs(ms[0].headers, "Subject", r)
  {
    HeaderOrLastWins(ms[0], "Subject", NoSubject);
    HeaderOr(ms[0], "Subject", NoSubject)
  }

  /** `get_thread`: refuse an empty thread; otherwise parse every body, then
      report the subject, the count and the date range and write the thread
      document. */
  function GetThread(env: Env, p: Provider, threadId: string): (r: Result<ThreadDownload>)
    ensures p.thread(threadId).Failure? ==> r == Failure(p.thread(threadId).error)
    ensures p.thread(threadId) == Success([]) ==> r == Failure(EmptyThreadError(threadId))
    ensures p.thread(threadId).Success? && |p.thread(threadId).value| > 0 ==>
      (r.Success? <==> WithBodies(env, p.thread(threadId).value).Success?)
    ensures p.thread(threadId).Success? && WithBodies(env, p.thread(threadId).value).Failure? ==>
      r == Failure(WithBodies(env, p.thread(threadId).value).error)
    ensures r.Success? ==>
      && p.thread(threadId).Success?
      && var ms := p.thread(threadId).value;
      && |ms| > 0
      && WithBodies(env, ms).Success?
      && r.value.messageCount == |ms|
      && r.value.threadId == threadId
      && r.value.subject == ThreadSubject(ms)
      && r.value.dateRange == DateRange(ms)
      && r.value.content == ThreadMarkdown(env, threadId, WithBodies(env, ms).value)
      && r.value.fileName == Sanitize("thread_" + threadId + "_" + r.value.subject + ".md")
      && r.value.sizeBytes == Utf8Length(r.value.content)
  {
    var ms :- p.thread(threadId);
    if |ms| == 0 then Failure(EmptyThreadError(threadId))
    else
      var mbs :- WithBodies(env, ms);
      var subject := ThreadSubject(ms);
      var content := ThreadMarkdown(env, threadId, mbs);
      Success(ThreadDownload(Sanitize("thread_" + threadId + "_" + subject + ".md"), content,
        Utf8Length(content), |ms|, threadId, subject, DateRange(ms)))
  }

  /** The thread document agrees with the returned record: its title carries the
      reported subject and its count line the reported message count. */
  lemma GetThreadReadBack(env: Env, p: Provider, threadId: string)
    requires GetThread(env, p, threadId).Success?
    requires SingleLine(GetThread(env, p, threadId).value.subject) && SingleLine(threadId)
    ensures var res := GetThread(env, p, threadId).value;
      var ls := Split(res.content, '\n');
      && |ls| >= 7
      && ls[0] == "# Email Thread: " + res.subject
      && ls[3] == Field("Message Count", NatToString(res.messageCount))
  {
    var ms := p.thread(threadId).value;
    var mbs := WithBodies(env, ms).value;
    assert mbs[0].0 == ms[0];
    ThreadReadBack(env, threadId, mbs);
  }

  // ---------------------------------------------------------------------------
  // add_label and remove_label

  /** `i` is the first label whose id is `labelId`. */
  ghost predicate FirstMatch(labels: seq<Label>, labelId: string, i: int) {
    0 <= i < |labels| && labels[i].id == Some(labelId)
    && forall j :: 0 <= j < i ==> labels[j].id != Some(labelId)
  }

  /** The display name of a label id: the `name` of the first label with that id
      (the id itself when that label has no name), or the id when no label has it. */
  function LabelName(labels: seq<Label>, labelId: string): (r: string)
    ensures (forall i :: 0 <= i < |labels| ==> labels[i].id != Some(labelId)) ==> r == labelId
    ensures forall i :: FirstMatch(labels, labelId, i) ==> r == labels[i].name.GetOr(labelId)
  {
    if |labels| == 0 then labelId
    else if labels[0].id == Some(labelId) then labels[0].name.GetOr(labelId)
    else
      var r := LabelName(labels[1..], labelId);
      assert forall i :: FirstMatch(labels, labelId, i) ==> i > 0 && FirstMatch(labels[1..], labelId, i - 1);
      r
  }

  /** The first match decides, whatever labels follow it. */
  lemma LabelNameFirstWins(labels: seq<Label>, labelId: string, name: string, rest: seq<Label>)
    requires forall i :: 0 <= i < |labels| ==> labels[i].id != Some(labelId)
    ensures LabelName(labels + [Label(Some(labelId), Some(name))] + rest, labelId) == name
  {
    var all := labels + [Label(Some(labelId), Some(name))] + rest;
    assert FirstMatch(all, labelId, |labels|);
  }

  /** `LabelOperationResult`. */
  datatype LabelOperation = LabelOperation(
    messageId: string, subject: string, labelName: string, labelId: string, operation: string)

  function LabelOperationOf(m: Message, messageId: string, labels: seq<Label>, labelId: string, operation: string): LabelOperation {
    LabelOperation(messageId, HeaderOr(m, "Subject", NoSubject), LabelName(labels, labelId), labelId, operation)
  }

  /** `add_label`: modify the message, then fetch it for its subject, then look up
      the label's name; the first failing call decides the error. */
  function AddLabel(p: Provider, messageId: string, labelId: string): (r: Result<LabelOperation>)
    ensures p.modifyLabels(messageId, [], [labelId]).Failure? ==> r == Failure(p.modifyLabels(messageId, [], [labelId]).error)
    ensures p.modifyLabels(messageId, [], [labelId]).Success? && p.fetch(messageId).Failure? ==>
      r == Failure(p.fetch(messageId).error)
    ensures p.modifyLabels(messageId, [], [labelId]).Success? && p.fetch(messageId).Success? && p.labels.Failure? ==>
      r == Failure(p.labels.error)
    ensures r.Success? <==> p.modifyLabels(messageId, [], [labelId]).Success? && p.fetch(messageId).Success? && p.labels.Success?
    ensures r.Success? ==>
      r.value == LabelOperationOf(p.fetch(messageId).value, messageId, p.labels.value, labelId, "added")
  {
    var done :- p.modifyLabels(messageId, [], [labelId]);
    var m :- p.fetch(messageId);
    var labels :- p.labels;
    Success(LabelOperationOf(m, messageId, labels, labelId, "added"))
  }

  /** `remove_label`: look up the label's name first, then modify the message, then
      fetch it for its subject. */
  function RemoveLabel(p: Provider, messageId: string, labelId: string): (r: Result<LabelOperation>)
    ensures p.labels.Failure? ==> r == Failure(p.labels.error)
    ensures p.labels.Success? && p.modifyLabels(messageId, [labelId], []).Failure? ==>
      r == Failure(p.modifyLabels(messageId, [labelId], []).error)
    ensures p.labels.Success? && p.modifyLabels(messageId, [labelId], []).Success? && p.fetch(messageId).Failure? ==>
      r == Failure(p.fetch(messageId).error)
    ensures r.Success? <==> p.labels.Success? && p.modifyLabels(messageId, [labelId], []).Success? && p.fetch(messageId).Success?
    ensures r.Success? ==>
      r.value == LabelOperationOf(p.fetch(messageId).value, messageId, p.labels.value, labelId, "removed")
  {
    var labels :- p.labels;
    var done :- p.modifyLabels(messageId, [labelId], []);
    var m :- p.fetch(messageId);
    Success(LabelOperationOf(m, messageId, labels, labelId, "removed"))
  }

  // ---------------------------------------------------------------------------
  // download_attachment

  /** `DownloadedAttachment`, with the saved file's name and the bytes written. */
  datatype DownloadedAttachment = DownloadedAttachment(
    savedName: string,
    data: seq<bv8>,
    filename: string,
    sizeBytes: nat,
    mimeType: string,
    messageId: string,
    attachmentId: string)

  ghost predicate FirstWithId(atts: seq<Attachment>, attachmentId: string, i: int) {
    0 <= i < |atts| && atts[i].attachmentId == attachmentId
    && forall j :: 0 <= j < i ==> atts[j].attachmentId != attachmentId
  }

  /** Python's `next((a for a in atts if a['attachment_id'] == id), None)`. */
  function FindById(atts: seq<Attachment>, attachmentId: string): (r: Option<Attachment>)
    ensures r.None? <==> forall i :: 0 <= i < |atts| ==> atts[i].attachmentId != attachmentId
    ensures forall i :: FirstWithId(atts, attachmentId, i) ==> r == Some(atts[i])
  {
    if |atts| == 0 then None
    else if atts[0].attachmentId == attachmentId then Some(atts[0])
    else
      var r := FindById(atts[1..], attachmentId);
      assert forall i :: 1 <= i < |atts| ==> atts[i] == atts[1..][i - 1];
      assert forall i :: FirstWithId(atts, attachmentId, i) ==> i > 0 && FirstWithId(atts[1..], attachmentId, i - 1);
      r
  }

  /** `download_attachment`: fetch the data, save it under the sanitized name,
      then describe it from the first listed attachment with that id, falling
      back to the requested name and `application/octet-stream`. */
  function DownloadAttachment(p: Provider, messageId: string, attachmentId: string, filename: string)
    : (r: Result<DownloadedAttachment>)
    ensures p.attachment(messageId, attachmentId).Failure? ==> r == Failure(p.attachment(messageId, attachmentId).error)
    ensures p.attachment(messageId, attachmentId).Success? && p.fetch(messageId).Failure? ==>
      r == Failure(p.fetch(messageId).error)
    ensures r.Success? <==> p.attachment(messageId, attachmentId).Success? && p.fetch(messageId).Success?
    ensures r.Success? ==>
      && r.value.data == p.attachment(messageId, attachmentId).value
      && r.value.sizeBytes == |r.value.data|
      && r.value.savedName == Sanitize(filename)
      && r.value.messageId == messageId && r.value.attachmentId == attachmentId
      && var atts := ListAttachments(p.fetch(messageId).value.payload);
      && ((forall i :: 0 <= i < |atts| ==> atts[i].attachmentId != attachmentId) ==>
            r.value.filename == filename && r.value.mimeType == DefaultMimeType)
      && (forall i :: FirstWithId(atts, attachmentId, i) ==>
            r.value.filename == atts[i].filename && r.value.mimeType == atts[i].mimeType)
  {
    var data :- p.attachment(messageId, attachmentId);
    var m :- p.fetch(messageId);
    var found := FindById(ListAttachments(m.payload), attachmentId);
    var name := if found.Some? then found.value.filename else filename;
    var mime := if found.Some? then found.value.mimeType else DefaultMimeType;
    Success(DownloadedAttachment(Sanitize(filename), data, name, |data|, mime, messageId, attachmentId))
  }

  /** The saved file stays in the export directory: its name is a single safe
      path component, never `.` or `..`. */
  lemma SavedNameStaysInDirectory(p: Provider, messageId: string, attachmentId: string, filename: string)
    requires DownloadAttachment(p, messageId, attachmentId, filename).Success?
    ensures var n := DownloadAttachment(p, messageId, attachmentId, filename).value.savedName;
      && IsSafeName(n) && '/' !in n && '\\' !in n && n != "." && n != ".."
  {
  }

  // ---------------------------------------------------------------------------
  // create_draft and send_email

  const PreviewLength: nat := 200

  /** The body preview of the current server: the first 200 characters, with no
      ellipsis. */
  function BodyPreview(body: string): (r: string)
    ensures r <= body
    ensures |r| == if |body| > PreviewLength then PreviewLength else |body|
  {
    if |body| > PreviewLength then body[..PreviewLength] else body
  }

  /** A short body is its own preview; a long one is cut with nothing appended. */
  lemma BodyPreviewCut(body: string)
    ensures |body| <= PreviewLength ==> BodyPreview(body) == body
    ensures |body| > PreviewLength ==> BodyPreview(body) + body[PreviewLength..] == body
  {
    if |body| > PreviewLength {
      assert body == body[..PreviewLength] + body[PreviewLength..];
    }
  }
}
