/** The markdown documents the current server writes: one message
    (`format_email_as_markdown`), a thread (`format_thread_as_markdown`) and the
    search-results file of `search_emails`. */
module Markdown {
  import opened Wrappers
  import opened Strings
  import opened Mime
  import opened Metadata

  /** A `**Label:** value` line. */
  function Field(name: string, value: string): string {
    "**" + name + ":** " + value
  }

  predicate AllSingleLines(ls: seq<string>) {
    forall i :: 0 <= i < |ls| ==> SingleLine(ls[i])
  }

  /** The lines above the body of a message document. */
  function EmailHeadLines(md: EmailMetadata): seq<string> {
    [ "# Email: " + md.subject,
      "",
      Field("Message ID", md.id),
      Field("Thread ID", md.threadId),
      Field("From", md.fromAddr),
      Field("To", md.toAddr),
      Field("Date", md.date),
      Field("Labels", Join(", ", md.labels)),
      Field("Has Attachments", BoolText(md.hasAttachments)),
      Field("Web URL", md.webUrl),
      "",
      "---",
      "",
      "## Body",
      "" ]
  }

  /** The message document for a metadata record and a body. */
  function EmailDocument(md: EmailMetadata, body: string): string {
    Document(EmailHeadLines(md)) + body + "\n"
  }

  /** `format_email_as_markdown`: the metadata block, then the body. */
  function EmailMarkdown(env: Env, m: Message, messageId: string, body: string): string {
    EmailDocument(BuildMetadata(env, m, messageId), body)
  }

  /** Read back line by line, a message document opens with the title carrying
      the subject and lists the metadata fields in their fixed order, up to the
      `## Body` heading, whatever the body contains. */
  lemma EmailDocumentReadBack(md: EmailMetadata, body: string)
    requires AllSingleLines(EmailHeadLines(md))
    ensures var ls := Split(EmailDocument(md, body), '\n');
      && |ls| >= 15
      && ls[0] == "# Email: " + md.subject
      && ls[2] == Field("Message ID", md.id)
      && ls[3] == Field("Thread ID", md.threadId)
      && ls[4] == Field("From", md.fromAddr)
      && ls[5] == Field("To", md.toAddr)
      && ls[6] == Field("Date", md.date)
      && ls[7] == Field("Labels", Join(", ", md.labels))
      && ls[8] == Field("Has Attachments", BoolText(md.hasAttachments))
      && ls[9] == Field("Web URL", md.webUrl)
      && ls[13] == "## Body"
  {
    var lines, rest := EmailHeadLines(md), body + "\n";
    AppendAssoc(Document(lines), body, "\n");
    SplitDocument(lines, rest);
    var ls := Split(Document(lines) + rest, '\n');
    forall k | 0 <= k < 15 ensures ls[k] == lines[k] {
      assert ls[..15][k] == ls[k];
    }
  }

  // ---------------------------------------------------------------------------
  // Threads

  const UnknownId: string := "unknown"

  /** The stub for a thread without messages. */
  function EmptyThreadLines(threadId: string): seq<string> {
    ["# Email Thread", "", Field("Thread ID", threadId), "", "No messages found."]
  }

  function ThreadHeadLines(subject: string, threadId: string, count: nat): seq<string> {
    [ "# Email Thread: " + subject,
      "",
      Field("Thread ID", threadId),
      Field("Message Count", NatToString(count)),
      "",
      "---",
      "" ]
  }

  /** The lines above the body in the section of one message. */
  function SectionLines(env: Env, i: nat, m: Message): seq<string> {
    [ "## Message " + NatToString(i),
      "",
      Field("Message ID", m.id.GetOr(UnknownId)),
      Field("From", HeaderOr(m, "From", Unknown)),
      Field("To", HeaderOr(m, "To", Unknown)),
      Field("Date", FormatEmailDate(env, HeaderOr(m, "Date", UnknownDate))),
      Field("Subject", HeaderOr(m, "Subject", NoSubject)),
      "" ]
  }

  /** The `## Message i` section of one (message, body) pair. */
  function MessageSection(env: Env, i: nat, mb: (Message, string)): string {
    Document(SectionLines(env, i, mb.0)) + mb.1 + "\n\n---\n\n"
  }

  /** `format_thread_as_markdown` (its unused `thread` argument is dropped). */
  function ThreadMarkdown(env: Env, threadId: string, mbs: seq<(Message, string)>): (r: string)
    ensures |mbs| == 0 ==> r == Document(EmptyThreadLines(threadId))
    ensures |mbs| > 0 ==>
      var sections := Numbered((i: nat, mb: (Message, string)) => MessageSection(env, i, mb), 1, mbs);
      && r == Document(ThreadHeadLines(HeaderOr(mbs[0].0, "Subject", NoSubject), threadId, |mbs|)) + Concat(sections)
      && |sections| == |mbs|
      && forall i :: 0 <= i < |mbs| ==> sections[i] == MessageSection(env, i + 1, mbs[i])
  {
    if |mbs| == 0 then Document(EmptyThreadLines(threadId))
    else
      Document(ThreadHeadLines(HeaderOr(mbs[0].0, "Subject", NoSubject), threadId, |mbs|))
        + Enumerate((i: nat, mb: (Message, string)) => MessageSection(env, i, mb), 1, mbs)
  }

  /** The empty-thread stub names the thread and says there are no messages. */
  lemma EmptyThreadReadBack(env: Env, threadId: string)
    requires SingleLine(threadId)
    ensures var ls := Split(ThreadMarkdown(env, threadId, []), '\n');
      && |ls| >= 5
      && ls[0] == "# Email Thread"
      && ls[2] == Field("Thread ID", threadId)
      && ls[4] == "No messages found."
  {
    var lines := EmptyThreadLines(threadId);
    FieldSingleLine("Thread ID", threadId);
    assert ThreadMarkdown(env, threadId, []) == Document(lines) + "";
    forall i | 0 <= i < 5 ensures SingleLine(lines[i]) {
      assert i == 0 || i == 1 || i == 2 || i == 3 || i == 4;
    }
    SplitDocument(lines, "");
    var ls := Split(Document(lines) + "", '\n');
    assert ls[..5][0] == ls[0] && ls[..5][2] == ls[2] && ls[..5][4] == ls[4];
  }

  /** The head of a thread document, whatever follows it. */
  lemma ThreadHeadReadBack(subject: string, threadId: string, count: nat, rest: string)
    requires SingleLine(subject) && SingleLine(threadId)
    ensures var ls := Split(Document(ThreadHeadLines(subject, threadId, count)) + rest, '\n');
      && |ls| >= 7
      && ls[0] == "# Email Thread: " + subject
      && ls[2] == Field("Thread ID", threadId)
      && ls[3] == Field("Message Count", NatToString(count))
  {
    var lines := ThreadHeadLines(subject, threadId, count);
    SingleLineAppend("# Email Thread: ", subject);
    FieldSingleLine("Thread ID", threadId);
    NumberSingleLine(count);
    FieldSingleLine("Message Count", NatToString(count));
    forall i | 0 <= i <= 6 ensures SingleLine(lines[i]) {
      assert i == 0 || i == 1 || i == 2 || i == 3 || i == 4 || i == 5 || i == 6;
    }
    SplitDocumentAt(lines, rest, 0);
    SplitDocumentAt(lines, rest, 2);
    SplitDocumentAt(lines, rest, 3);
    SplitDocumentAt(lines, rest, 6);
  }

  /** Read back, a thread document's title carries the first message's subject
      and its count line the number of messages. */
  lemma ThreadReadBack(env: Env, threadId: string, mbs: seq<(Message, string)>)
    requires |mbs| > 0
    requires SingleLine(HeaderOr(mbs[0].0, "Subject", NoSubject)) && SingleLine(threadId)
    ensures var ls := Split(ThreadMarkdown(env, threadId, mbs), '\n');
      && |ls| >= 7
      && ls[0] == "# Email Thread: " + HeaderOr(mbs[0].0, "Subject", NoSubject)
      && ls[2] == Field("Thread ID", threadId)
      && ls[3] == Field("Message Count", NatToString(|mbs|))
  {
    var subject := HeaderOr(mbs[0].0, "Subject", NoSubject);
    ThreadHeadReadBack(subject, threadId, |mbs|,
      Concat(Numbered((i: nat, mb: (Message, string)) => MessageSection(env, i, mb), 1, mbs)));
  }

  /** Read back, the section of the `i`-th message is headed `## Message i` and
      names its id, `unknown` when the message has none. */
  lemma MessageSectionReadBack(env: Env, i: nat, mb: (Message, string))
    requires SingleLine(mb.0.id.GetOr(UnknownId))
    ensures var ls := Split(MessageSection(env, i, mb), '\n');
      && |ls| >= 3
      && ls[0] == "## Message " + NatToString(i)
      && ls[2] == Field("Message ID", if mb.0.id.Some? then mb.0.id.value else UnknownId)
  {
    var lines, rest := SectionLines(env, i, mb.0), mb.1 + "\n\n---\n\n";
    AppendAssoc(Document(lines), mb.1, "\n\n---\n\n");
    NumberSingleLine(i);
    SingleLineAppend("## Message ", NatToString(i));
    FieldSingleLine("Message ID", mb.0.id.GetOr(UnknownId));
    forall j | 0 <= j <= 2 ensures SingleLine(lines[j]) {
      assert j == 0 || j == 1 || j == 2;
    }
    SplitDocumentAt(lines, rest, 0);
    SplitDocumentAt(lines, rest, 2);
  }

  // ---------------------------------------------------------------------------
  // Search results

  function SearchHeadLines(query: string, count: nat): seq<string> {
    [ "# Gmail Search Results",
      "",
      Field("Query", query),
      Field("Results", NatToString(count) + " emails"),
      "",
      "---",
      "" ]
  }

  /** The `## Email i` block wrapping one message document. */
  function SearchSection(i: nat, doc: string): string {
    "## Email " + NatToString(i) + "\n\n" + doc + "\n\n---\n\n"
  }

  /** The search-results document: the query, the number of results, then one
      numbered section per message document in provider order. */
  function SearchDocument(query: string, docs: seq<string>): (r: string)
    ensures var sections := Numbered(SearchSection, 1, docs);
      && r == Document(SearchHeadLines(query, |docs|)) + Concat(sections)
      && |sections| == |docs|
      && forall i :: 0 <= i < |docs| ==> sections[i] == SearchSection(i + 1, docs[i])
  {
    Document(SearchHeadLines(query, |docs|)) + Enumerate(SearchSection, 1, docs)
  }

  /** The head of a results document, whatever follows it. */
  lemma SearchHeadReadBack(query: string, count: nat, rest: string)
    requires SingleLine(query)
    ensures var ls := Split(Document(SearchHeadLines(query, count)) + rest, '\n');
      && |ls| >= 7
      && ls[0] == "# Gmail Search Results"
      && ls[2] == Field("Query", query)
      && ls[3] == Field("Results", NatToString(count) + " emails")
  {
    var head := SearchHeadLines(query, count);
    NumberSingleLine(count);
    SingleLineAppend(NatToString(count), " emails");
    FieldSingleLine("Query", query);
    FieldSingleLine("Results", NatToString(count) + " emails");
    forall i | 0 <= i < |head| ensures SingleLine(head[i]) {
      assert i == 0 || i == 1 || i == 2 || i == 3 || i == 4 || i == 5 || i == 6;
    }
    SplitDocumentAt(head, rest, 0);
    SplitDocumentAt(head, rest, 2);
    SplitDocumentAt(head, rest, 3);
    SplitDocumentAt(head, rest, 6);
  }

  /** Read back, the results document states the query and the result count. */
  lemma SearchDocumentReadBack(query: string, docs: seq<string>)
    requires SingleLine(query)
    ensures var ls := Split(SearchDocument(query, docs), '\n');
      && |ls| >= 7
      && ls[2] == Field("Query", query)
      && ls[3] == Field("Results", NatToString(|docs|) + " emails")
  {
    SearchHeadReadBack(query, |docs|, Concat(Numbered(SearchSection, 1, docs)));
  }

  lemma FieldSingleLine(name: string, value: string)
    requires SingleLine(name) && SingleLine(value)
    ensures SingleLine(Field(name, value))
  {
    assert Field(name, value) == "**" + name + ":** " + value;
    SingleLineAppend("**", name);
    SingleLineAppend("**" + name, ":** ");
    SingleLineAppend("**" + name + ":** ", value);
  }
}
