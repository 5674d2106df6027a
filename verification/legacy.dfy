/** The decision logic of the older server (`mcp_gmail/server.py`), whose tools
    answer with plain text: errors it anticipates are returned as text, while a
    failing provider call or body parse still fails the call. */
module Legacy {
  import opened Wrappers
  import opened Strings
  import opened Batch
  import opened Query
  import opened Mime
  import opened Metadata
  import opened Tools

  /** The provider as the older server sees it. It differs from the current one
      in that `modifyLabels` answers with the modified message. */
  datatype LegacyProvider = LegacyProvider(
    list: string -> Result<seq<string>>,
    fetch: string -> Result<Message>,
    thread: string -> Result<seq<Message>>,
    labels: Result<seq<Label>>,
    modifyLabels: (string, seq<string>, seq<string>) -> Result<Message>)

  // ---------------------------------------------------------------------------
  // format_message

  /** The four headers `format_message` shows, each with its fallback: `From` and
      `To` default to `Unknown`, `Subject` to `No Subject` and `Date`, shown
      raw, to `Unknown Date`. */
  function ShownHeaders(m: Message): (r: (string, string, string, string))
    ensures NoHeader(m.headers, "From") ==> r.0 == Unknown
    ensures !NoHeader(m.headers, "From") ==> LastValueIs(m.headers, "From", r.0)
    ensures NoHeader(m.headers, "To") ==> r.1 == Unknown
    ensures !NoHeader(m.headers, "To") ==> LastValueIs(m.headers, "To", r.1)
    ensures NoHeader(m.headers, "Subject") ==> r.2 == NoSubject
    ensures !NoHeader(m.headers, "Subject") ==> LastValueIs(m.headers, "Subject", r.2)
    ensures NoHeader(m.headers, "Date") ==> r.3 == UnknownDate
    ensures !NoHeader(m.headers, "Date") ==> LastValueIs(m.headers, "Date", r.3)
  {
    HeaderOrLastWins(m, "From", Unknown);
    HeaderOrLastWins(m, "To", Unknown);
    HeaderOrLastWins(m, "Subject", NoSubject);
    HeaderOrLastWins(m, "Date", UnknownDate);
    (HeaderOr(m, "From", Unknown), HeaderOr(m, "To", Unknown),
     HeaderOr(m, "Subject", NoSubject), HeaderOr(m, "Date", UnknownDate))
  }

  /** The lines above the body: a blank line, the four headers, a blank line. */
  function MessageLines(m: Message): seq<string> {
    var (from, to, subject, date) := ShownHeaders(m);
    ["", "From: " + from, "To: " + to, "Subject: " + subject, "Date: " + date, ""]
  }

  /** `format_message`: the headers, then the body after a blank line. */
  function FormatMessage(decode: string -> string, m: Message): (r: Result<string>)
    ensures r.Success? <==> ExtractBody(decode, m.payload).Success?
    ensures r.Failure? ==> r.error == ExtractBody(decode, m.payload).error
    ensures r.Success? ==> r.value == Document(MessageLines(m)) + ExtractBody(decode, m.payload).value + "\n"
  {
    var body :- ExtractBody(decode, m.payload);
    Success(Document(MessageLines(m)) + body + "\n")
  }

  /** The header block of a formatted message, whatever follows it. */
  lemma HeaderBlockReadBack(h: (string, string, string, string), rest: string)
    requires SingleLine(h.0) && SingleLine(h.1) && SingleLine(h.2) && SingleLine(h.3)
    ensures var ls := Split(Document(["", "From: " + h.0, "To: " + h.1, "Subject: " + h.2, "Date: " + h.3, ""]) + rest, '\n');
      && |ls| >= 6
      && ls[0] == ""
      && ls[1] == "From: " + h.0
      && ls[2] == "To: " + h.1
      && ls[3] == "Subject: " + h.2
      && ls[4] == "Date: " + h.3
      && ls[5] == ""
  {
    var lines := ["", "From: " + h.0, "To: " + h.1, "Subject: " + h.2, "Date: " + h.3, ""];
    SingleLineAppend("From: ", h.0);
    SingleLineAppend("To: ", h.1);
    SingleLineAppend("Subject: ", h.2);
    SingleLineAppend("Date: ", h.3);
    forall i | 0 <= i < |lines| ensures SingleLine(lines[i]) {
      assert i == 0 || i == 1 || i == 2 || i == 3 || i == 4 || i == 5;
    }
    SplitDocumentAt(lines, rest, 0);
    SplitDocumentAt(lines, rest, 1);
    SplitDocumentAt(lines, rest, 2);
    SplitDocumentAt(lines, rest, 3);
    SplitDocumentAt(lines, rest, 4);
    SplitDocumentAt(lines, rest, 5);
  }

  /** Read back, the formatted message shows its headers on lines 1 to 4 and a
      blank line before the body. */
  lemma FormatMessageReadBack(decode: string -> string, m: Message)
    requires FormatMessage(decode, m).Success?
    requires var h := ShownHeaders(m); SingleLine(h.0) && SingleLine(h.1) && SingleLine(h.2) && SingleLine(h.3)
    ensures var h := ShownHeaders(m);
      var ls := Split(FormatMessage(decode, m).value, '\n');
      && |ls| >= 6
      && ls[0] == ""
      && ls[1] == "From: " + h.0
      && ls[2] == "To: " + h.1
      && ls[3] == "Subject: " + h.2
      && ls[4] == "Date: " + h.3
      && ls[5] == ""
  {
    var h := ShownHeaders(m);
    var rest := ExtractBody(decode, m.payload).value + "\n";
    assert MessageLines(m) == ["", "From: " + h.0, "To: " + h.1, "Subject: " + h.2, "Date: " + h.3, ""];
    assert FormatMessage(decode, m).value == Document(MessageLines(m)) + rest;
    HeaderBlockReadBack(h, rest);
  }

  // ---------------------------------------------------------------------------
  // Resources

  /** `gmail://messages/{message_id}`. */
  function MessageResource(decode: string -> string, p: LegacyProvider, id: string): (r: Result<string>)
    ensures p.fetch(id).Failure? ==> r == Failure(p.fetch(id).error)
    ensures p.fetch(id).Success? ==> r == FormatMessage(decode, p.fetch(id).value)
  {
    var m :- p.fetch(id);
    FormatMessage(decode, m)
  }

  function ThreadTitle(threadId: string): string {
    "Email Thread (ID: " + threadId + ")"
  }

  function ThreadHead(threadId: string): string {
    ThreadTitle(threadId) + "\n"
  }

  /** The `--- Message i ---` section of one formatted message. */
  function MessageBlock(i: nat, text: string): string {
    "\n--- Message " + NatToString(i) + " ---\n" + text
  }

  /** `i` is the first message of `ms` that cannot be formatted. */
  ghost predicate FirstBadFormat(decode: string -> string, ms: seq<Message>, i: int) {
    && 0 <= i < |ms|
    && FormatMessage(decode, ms[i]).Failure?
    && forall j :: 0 <= j < i ==> FormatMessage(decode, ms[j]).Success?
  }

  /** The messages of a thread formatted in order; the first failure aborts. */
  function FormatThread(decode: string -> string, ms: seq<Message>): (r: Result<seq<string>>)
    ensures r.Success? <==> forall i :: 0 <= i < |ms| ==> FormatMessage(decode, ms[i]).Success?
    ensures r.Success? ==> |r.value| == |ms| && forall i :: 0 <= i < |ms| ==> FormatMessage(decode, ms[i]) == Success(r.value[i])
    ensures r.Failure? ==> exists i :: FirstBadFormat(decode, ms, i) && r.error == FormatMessage(decode, ms[i]).error
  {
    var f := (m: Message) => FormatMessage(decode, m);
    assert forall i :: 0 <= i < |ms| ==> f(ms[i]) == FormatMessage(decode, ms[i]);
    match FailFast(f, ms)
    case Success(texts) => Success(texts)
    case Failure(e) =>
      ghost var k :| FirstFailure(f, ms, k) && e == f(ms[k]).error;
      assert FirstBadFormat(decode, ms, k);
      Failure(e)
  }

  /** `gmail://threads/{thread_id}`: the header line, then one numbered section
      per message in thread order; formatting fails on the first body that
      cannot be parsed. */
  function ThreadResource(decode: string -> string, p: LegacyProvider, threadId: string): (r: Result<string>)
    ensures p.thread(threadId).Failure? ==> r == Failure(p.thread(threadId).error)
    ensures p.thread(threadId) == Success([]) ==> r == Success(ThreadHead(threadId))
    ensures p.thread(threadId).Success? && FormatThread(decode, p.thread(threadId).value).Failure? ==>
      r == Failure(FormatThread(decode, p.thread(threadId).value).error)
    ensures p.thread(threadId).Success? && FormatThread(decode, p.thread(threadId).value).Success? ==>
      r == Success(ThreadHead(threadId) + Concat(Numbered(MessageBlock, 1, FormatThread(decode, p.thread(threadId).value).value)))
  {
    var ms :- p.thread(threadId);
    var texts :- FormatThread(decode, ms);
    assert |texts| == 0 ==> Numbered(MessageBlock, 1, texts) == [] && ThreadHead(threadId) + "" == ThreadHead(threadId);
    Success(ThreadHead(threadId) + Enumerate(MessageBlock, 1, texts))
  }

  /** The thread text opens with its header line whatever the messages are. */
  lemma ThreadResourceReadBack(decode: string -> string, p: LegacyProvider, threadId: string)
    requires ThreadResource(decode, p, threadId).Success?
    requires SingleLine(threadId)
    ensures var ls := Split(ThreadResource(decode, p, threadId).value, '\n');
      && |ls| >= 1
      && ls[0] == "Email Thread (ID: " + threadId + ")"
  {
    SingleLineAppend("Email Thread (ID: ", threadId);
    SingleLineAppend("Email Thread (ID: " + threadId, ")");
    var texts := FormatThread(decode, p.thread(threadId).value).value;
    FirstLine(ThreadTitle(threadId), Concat(Numbered(MessageBlock, 1, texts)));
  }

  // ---------------------------------------------------------------------------
  // search_emails and query_emails

  /** The arguments of the older `search_emails` (`max_results` is left out). */
  datatype LegacySearchRequest = LegacySearchRequest(
    fromEmail: Option<string>,
    toEmail: Option<string>,
    subject: Option<string>,
    hasAttachment: bool,
    isUnread: bool,
    afterDate: Option<string>,
    beforeDate: Option<string>,
    labelFilter: Option<string>)

  function LegacyFilter(req: LegacySearchRequest): Filter {
    Filter(
      if Filled(req.labelFilter) then Some([req.labelFilter.value]) else None,
      req.fromEmail, req.toEmail, req.subject, req.afterDate, req.beforeDate,
      Some(req.hasAttachment), None, None, None)
  }

  /** The query sent: `is_unread` is always passed, so it is never absent. */
  function LegacySentQuery(req: LegacySearchRequest): string {
    BuildLegacyQuery(Some(req.isUnread), LegacyFilter(req))
  }

  /** What the listing shows of one match: its id and its shown headers. */
  type Glance = (string, (string, string, string, string))

  function GlanceOf(entry: (string, Message)): Glance {
    (entry.0, ShownHeaders(entry.1))
  }

  /** The lines describing one listed message: a blank line, the id, the sender,
      the subject and the date. */
  function ListingLines(g: Glance): seq<string> {
    ["", "Message ID: " + g.0, "From: " + g.1.0, "Subject: " + g.1.2, "Date: " + g.1.3]
  }

  function ListingEntry(entry: (string, Message)): string {
    Document(ListingLines(GlanceOf(entry)))
  }

  function FetchWithId(p: LegacyProvider, id: string): (r: Result<(string, Message)>)
    ensures r.Success? <==> p.fetch(id).Success?
    ensures r.Failure? ==> r.error == p.fetch(id).error
    ensures r.Success? ==> r.value == (id, p.fetch(id).value)
  {
    var m :- p.fetch(id);
    Success((id, m))
  }

  /** The matches, fetched one after the other; the first failure aborts. */
  function FetchAll(p: LegacyProvider, ids: seq<string>): (r: Result<seq<(string, Message)>>)
    ensures r.Success? <==> forall i :: 0 <= i < |ids| ==> p.fetch(ids[i]).Success?
    ensures r.Success? ==> |r.value| == |ids| && forall i :: 0 <= i < |ids| ==> r.value[i] == (ids[i], p.fetch(ids[i]).value)
    ensures r.Failure? ==> exists i :: FirstFailure(p.fetch, ids, i) && r.error == p.fetch(ids[i]).error
  {
    var f := (id: string) => FetchWithId(p, id);
    assert forall i :: 0 <= i < |ids| ==> f(ids[i]) == FetchWithId(p, ids[i]);
    match FailFast(f, ids)
    case Success(entries) => Success(entries)
    case Failure(e) =>
      ghost var k :| FirstFailure(f, ids, k) && e == f(ids[k]).error;
      assert FirstFailure(p.fetch, ids, k);
      Failure(e)
  }

  /** A header line followed by one entry per match, in provider order. */
  function Listing(head: string, entries: seq<(string, Message)>): string {
    head + Concat(seq(|entries|, i requires 0 <= i < |entries| => ListingEntry(entries[i])))
  }

  function SearchLine(count: nat): string {
    "Found " + NatToString(count) + " messages matching criteria:"
  }

  function SearchHead(count: nat): string {
    SearchLine(count) + "\n"
  }

  /** The older `search_emails`: an invalid date bound is answered with an error
      text (after the lower bound, the upper one) before anything is searched;
      otherwise the matches of the built query are listed. */
  function LegacySearchEmails(p: LegacyProvider, req: LegacySearchRequest): (r: Result<string>)
    ensures BadDate(req.afterDate) ==> r == Success("Error: " + DateError("after_date", req.afterDate.value))
    ensures !BadDate(req.afterDate) && BadDate(req.beforeDate) ==>
      r == Success("Error: " + DateError("before_date", req.beforeDate.value))
    ensures (!BadDate(req.afterDate) && !BadDate(req.beforeDate) && p.list(LegacySentQuery(req)).Failure?) ==>
      r == Failure(p.list(LegacySentQuery(req)).error)
    ensures (&& !BadDate(req.afterDate) && !BadDate(req.beforeDate) && p.list(LegacySentQuery(req)).Success?
             && FetchAll(p, p.list(LegacySentQuery(req)).value).Success?) ==>
      var ids := p.list(LegacySentQuery(req)).value;
      r == Success(Listing(SearchHead(|ids|), FetchAll(p, ids).value))
    ensures (&& !BadDate(req.afterDate) && !BadDate(req.beforeDate) && p.list(LegacySentQuery(req)).Success?
             && FetchAll(p, p.list(LegacySentQuery(req)).value).Failure?) ==>
      r == Failure(FetchAll(p, p.list(LegacySentQuery(req)).value).error)
    ensures r.Failure? ==> !BadDate(req.afterDate) && !BadDate(req.beforeDate)
  {
    if BadDate(req.afterDate) then Success("Error: " + DateError("after_date", req.afterDate.value))
    else if BadDate(req.beforeDate) then Success("Error: " + DateError("before_date", req.beforeDate.value))
    else
      var ids :- p.list(LegacySentQuery(req));
      var entries :- FetchAll(p, ids);
      Success(Listing(SearchHead(|ids|), entries))
  }

  /** With the default `is_unread=False` the query begins with an empty clause. */
  lemma LegacySearchDefaultQuery(req: LegacySearchRequest)
    requires !req.isUnread
    requires Parts(FilterClauses(LegacyFilter(req))) != []
    ensures LegacySentQuery(req) == " " + Join(" ", Parts(FilterClauses(LegacyFilter(req))))
  {
    LegacyFalseQuirk(LegacyFilter(req));
  }

  function QueryLine(query: string, count: nat): string {
    "Found " + NatToString(count) + " messages matching query: \"" + query + "\""
  }

  function QueryHead(query: string, count: nat): string {
    QueryLine(query, count) + "\n"
  }

  /** `query_emails`: the matches of a raw query, listed like the search. */
  function QueryEmails(p: LegacyProvider, query: string): (r: Result<string>)
    ensures p.list(query).Failure? ==> r == Failure(p.list(query).error)
    ensures p.list(query).Success? && FetchAll(p, p.list(query).value).Failure? ==>
      r == Failure(FetchAll(p, p.list(query).value).error)
    ensures p.list(query).Success? && FetchAll(p, p.list(query).value).Success? ==>
      r == Success(Listing(QueryHead(query, |p.list(query).value|), FetchAll(p, p.list(query).value).value))
  {
    var ids :- p.list(query);
    var entries :- FetchAll(p, ids);
    Success(Listing(QueryHead(query, |ids|), entries))
  }

  /** What the listing shows of each match, in order. */
  function Glances(entries: seq<(string, Message)>): (r: seq<Glance>)
    ensures |r| == |entries| && forall i :: 0 <= i < |entries| ==> r[i] == GlanceOf(entries[i])
  {
    seq(|entries|, i requires 0 <= i < |entries| => GlanceOf(entries[i]))
  }

  /** The five-line block of each glance, in order. */
  function ListingBlocks(gs: seq<Glance>): (r: seq<seq<string>>)
    ensures |r| == |gs| && forall i :: 0 <= i < |gs| ==> r[i] == ListingLines(gs[i])
  {
    seq(|gs|, i requires 0 <= i < |gs| => ListingLines(gs[i]))
  }

  /** The lines of all listed glances, one block of five per match. */
  ghost function AllListingLines(gs: seq<Glance>): seq<string> {
    Flatten(ListingBlocks(gs))
  }

  /** The entries of a listing form one document whose lines are the entries'
      blocks of five, in order. */
  lemma ListingDocument(entries: seq<(string, Message)>)
    ensures Concat(seq(|entries|, i requires 0 <= i < |entries| => ListingEntry(entries[i])))
      == Document(AllListingLines(Glances(entries)))
  {
    var blocks := ListingBlocks(Glances(entries));
    assert seq(|entries|, i requires 0 <= i < |entries| => ListingEntry(entries[i]))
      == seq(|blocks|, i requires 0 <= i < |blocks| => Document(blocks[i]));
    ConcatDocuments(blocks);
  }

  /** Line `k` of the `i`-th block is line `5 * i + k` of all the blocks. */
  lemma {:induction false} BlockLineAt(blocks: seq<seq<string>>, i: nat, k: nat)
    requires forall j :: 0 <= j < |blocks| ==> |blocks[j]| == 5
    requires i < |blocks| && k < 5
    ensures 5 * i + k < |Flatten(blocks)|
    ensures Flatten(blocks)[5 * i + k] == blocks[i][k]
    decreases i
  {
    FlattenLength(blocks, 5);
    if i > 0 {
      assert forall j :: 0 <= j < |blocks[1..]| ==> |blocks[1..][j]| == 5 by {
        forall j | 0 <= j < |blocks[1..]| ensures |blocks[1..][j]| == 5 {
          assert blocks[1..][j] == blocks[j + 1];
        }
      }
      BlockLineAt(blocks[1..], i - 1, k);
      assert blocks[1..][i - 1] == blocks[i];
      var j := 5 * (i - 1) + k;
      assert (blocks[0] + Flatten(blocks[1..]))[5 + j] == Flatten(blocks[1..])[j];
    }
  }

  /** Read back from all the blocks, the `i`-th match gives its id, sender,
      subject and date at lines `5 * i + 1` to `5 * i + 4`. */
  lemma ListingLineAt(gs: seq<Glance>, i: nat)
    requires i < |gs|
    ensures var ls := AllListingLines(gs);
      && |ls| == 5 * |gs|
      && ls[5 * i] == ""
      && ls[5 * i + 1] == "Message ID: " + gs[i].0
      && ls[5 * i + 2] == "From: " + gs[i].1.0
      && ls[5 * i + 3] == "Subject: " + gs[i].1.2
      && ls[5 * i + 4] == "Date: " + gs[i].1.3
  {
    var blocks := ListingBlocks(gs);
    var ls, b := Flatten(blocks), blocks[i];
    assert |ls| == 5 * |gs| by { FlattenLength(blocks, 5); }
    assert ls[5 * i] == b[0] by { BlockLineAt(blocks, i, 0); }
    assert ls[5 * i + 1] == b[1] by { BlockLineAt(blocks, i, 1); }
    assert ls[5 * i + 2] == b[2] by { BlockLineAt(blocks, i, 2); }
    assert ls[5 * i + 3] == b[3] by { BlockLineAt(blocks, i, 3); }
    assert ls[5 * i + 4] == b[4] by { BlockLineAt(blocks, i, 4); }
  }

  /** The listed fields of a match, each without a line break. */
  predicate Listable(g: Glance) {
    SingleLine(g.0) && SingleLine(g.1.0) && SingleLine(g.1.2) && SingleLine(g.1.3)
  }

  /** Reading a listing back: its header line, then the five lines of each entry,
      in order. */
  lemma ListingReadBack(headLine: string, entries: seq<(string, Message)>)
    requires SingleLine(headLine)
    requires forall i :: 0 <= i < |entries| ==> Listable(GlanceOf(entries[i]))
    ensures Split(Listing(headLine + "\n", entries), '\n') == [headLine] + AllListingLines(Glances(entries))
  {
    var gs := Glances(entries);
    var body := AllListingLines(gs);
    assert Listing(headLine + "\n", entries) == headLine + "\n" + Document(body) by {
      ListingDocument(entries);
    }
    SplitLine(headLine, Document(body));
    assert Split(Document(body), '\n') == body by {
      AllListingLinesSingle(gs);
      SplitDocumentAll(body, "");
      assert Document(body) + "" == Document(body);
    }
  }

  /** No line of a listing's blocks breaks when no listed field does. */
  lemma AllListingLinesSingle(gs: seq<Glance>)
    requires forall i :: 0 <= i < |gs| ==> Listable(gs[i])
    ensures forall j :: 0 <= j < |AllListingLines(gs)| ==> '\n' !in AllListingLines(gs)[j]
  {
    var blocks := ListingBlocks(gs);
    forall i, k | 0 <= i < |blocks| && 0 <= k < |blocks[i]| ensures '\n' !in blocks[i][k] {
      ListingLinesSingle(gs[i]);
    }
    FlattenSingle(blocks);
  }

  lemma ListingLabelsSingle()
    ensures SingleLine("Message ID: ") && SingleLine("From: ") && SingleLine("Subject: ") && SingleLine("Date: ")
  {
  }

  lemma ListingLinesSingle(g: Glance)
    requires Listable(g)
    ensures forall k :: 0 <= k < |ListingLines(g)| ==> '\n' !in ListingLines(g)[k]
  {
    ListingLabelsSingle();
    SingleLineAppend("Message ID: ", g.0);
    SingleLineAppend("From: ", g.1.0);
    SingleLineAppend("Subject: ", g.1.2);
    SingleLineAppend("Date: ", g.1.3);
  }

  lemma QueryLineSingle(query: string, count: nat)
    requires SingleLine(query)
    ensures SingleLine(QueryLine(query, count))
  {
    NumberSingleLine(count);
    SingleLineAppend("Found ", NatToString(count));
    SingleLineAppend("Found " + NatToString(count), " messages matching query: \"");
    SingleLineAppend("Found " + NatToString(count) + " messages matching query: \"", query);
    SingleLineAppend("Found " + NatToString(count) + " messages matching query: \"" + query, "\"");
  }

  lemma SearchLineSingle(count: nat)
    ensures SingleLine(SearchLine(count))
  {
    NumberSingleLine(count);
    SingleLineAppend("Found ", NatToString(count));
    SingleLineAppend("Found " + NatToString(count), " messages matching criteria:");
  }

  /** A successful `query_emails` answer reads back as its count line, then the
      five lines of each fetched match, in the provider's order. */
  lemma QueryEmailsReadBack(p: LegacyProvider, query: string)
    requires QueryEmails(p, query).Success? && SingleLine(query)
    requires forall i :: 0 <= i < |p.list(query).value| ==>
      Listable((p.list(query).value[i], ShownHeaders(p.fetch(p.list(query).value[i]).value)))
    ensures var ids := p.list(query).value;
      Split(QueryEmails(p, query).value, '\n') == [QueryLine(query, |ids|)] + AllListingLines(Glances(FetchAll(p, ids).value))
  {
    var ids := p.list(query).value;
    var entries := FetchAll(p, ids).value;
    QueryLineSingle(query, |ids|);
    assert forall i :: 0 <= i < |entries| ==> Listable(GlanceOf(entries[i])) by {
      forall i | 0 <= i < |entries| ensures Listable(GlanceOf(entries[i])) {
        assert entries[i] == (ids[i], p.fetch(ids[i]).value);
      }
    }
    ListingReadBack(QueryLine(query, |ids|), entries);
  }

  /** A successful search that got past the date checks reads back as its count
      line, then the five lines of each fetched match, in the provider's order. */
  lemma LegacySearchEmailsReadBack(p: LegacyProvider, req: LegacySearchRequest)
    requires !BadDate(req.afterDate) && !BadDate(req.beforeDate)
    requires LegacySearchEmails(p, req).Success?
    requires forall i :: 0 <= i < |p.list(LegacySentQuery(req)).value| ==>
      Listable((p.list(LegacySentQuery(req)).value[i], ShownHeaders(p.fetch(p.list(LegacySentQuery(req)).value[i]).value)))
    ensures var ids := p.list(LegacySentQuery(req)).value;
      Split(LegacySearchEmails(p, req).value, '\n') == [SearchLine(|ids|)] + AllListingLines(Glances(FetchAll(p, ids).value))
  {
    var ids := p.list(LegacySentQuery(req)).value;
    var entries := FetchAll(p, ids).value;
    SearchLineSingle(|ids|);
    assert forall i :: 0 <= i < |entries| ==> Listable(GlanceOf(entries[i])) by {
      forall i | 0 <= i < |entries| ensures Listable(GlanceOf(entries[i])) {
        assert entries[i] == (ids[i], p.fetch(ids[i]).value);
      }
    }
    ListingReadBack(SearchLine(|ids|), entries);
  }

  // ---------------------------------------------------------------------------
  // get_emails

  const NoIdsText: string := "No message IDs provided."

  /** The `--- Email i (ID: id) ---` section of a retrieved message. */
  function RetrievedBlock(i: nat, entry: (string, string)): string {
    "\n--- Email " + NatToString(i) + " (ID: " + entry.0 + ") ---\n" + entry.1
  }

  /** The `--- Email i (ID: id) ---` section of a failed retrieval. */
  function FailedBlock(i: nat, entry: (string, string)): string {
    "\n--- Email " + NatToString(i) + " (ID: " + entry.0 + ") ---\nError: " + entry.1 + "\n"
  }

  function RetrievedLine(count: nat): string {
    "Retrieved " + NatToString(count) + " emails:"
  }

  function RetrievedHead(count: nat): string {
    RetrievedLine(count) + "\n"
  }

  function FailedHead(count: nat): string {
    "\n\nFailed to retrieve " + NatToString(count) + " emails:\n"
  }

  /** The report: the retrieved messages numbered from 1, then, only when some
      retrieval failed, the failures numbered from 1 again. */
  function Report(retrieved: seq<(string, string)>, failed: seq<(string, string)>): (r: string)
    ensures |failed| == 0 ==> r == RetrievedHead(|retrieved|) + Concat(Numbered(RetrievedBlock, 1, retrieved))
    ensures |failed| > 0 ==>
      r == RetrievedHead(|retrieved|) + (Concat(Numbered(RetrievedBlock, 1, retrieved))
        + (FailedHead(|failed|) + Concat(Numbered(FailedBlock, 1, failed))))
  {
    RetrievedHead(|retrieved|) + (Enumerate(RetrievedBlock, 1, retrieved)
      + (if |failed| > 0 then FailedHead(|failed|) + Enumerate(FailedBlock, 1, failed) else ""))
  }

  function FormatEntry(decode: string -> string, entry: (string, Message)): (r: Result<(string, string)>)
    ensures r.Success? <==> FormatMessage(decode, entry.1).Success?
    ensures r.Success? ==> r.value == (entry.0, FormatMessage(decode, entry.1).value)
  {
    var text :- FormatMessage(decode, entry.1);
    Success((entry.0, text))
  }

  /** The retrieved messages formatted; the first body that cannot be parsed
      aborts the call. */
  function FormatAll(decode: string -> string, entries: seq<(string, Message)>): (r: Result<seq<(string, string)>>)
    ensures r.Success? <==> forall i :: 0 <= i < |entries| ==> FormatMessage(decode, entries[i].1).Success?
    ensures r.Success? ==> |r.value| == |entries| && forall i :: 0 <= i < |entries| ==>
      r.value[i] == (entries[i].0, FormatMessage(decode, entries[i].1).value)
    ensures r.Failure? ==> exists i :: FirstBadFormat(decode, Seconds(entries), i) && r.error == FormatMessage(decode, entries[i].1).error
  {
    var f := (entry: (string, Message)) => FormatEntry(decode, entry);
    assert forall i :: 0 <= i < |entries| ==> f(entries[i]) == FormatEntry(decode, entries[i]);
    match FailFast(f, entries)
    case Success(texts) => Success(texts)
    case Failure(e) =>
      ghost var k :| FirstFailure(f, entries, k) && e == f(entries[k]).error;
      assert FirstBadFormat(decode, Seconds(entries), k);
      Failure(e)
  }

  /** The older `get_emails`: the fixed text for no ids; otherwise every id is
      tried whatever happened before, and the report lists the retrieved messages
      and the failures, each in input order. */
  function LegacyGetEmails(decode: string -> string, p: LegacyProvider, ids: seq<string>): (r: Result<string>)
    ensures |ids| == 0 ==> r == Success(NoIdsText)
    ensures |ids| > 0 ==>
      var (oks, errs) := Collect(p.fetch, ids);
      && (r.Success? <==> FormatAll(decode, oks).Success?)
      && (r.Success? ==> r.value == Report(FormatAll(decode, oks).value, errs))
      && (r.Failure? ==> r.error == FormatAll(decode, oks).error)
  {
    if |ids| == 0 then Success(NoIdsText)
    else
      var (oks, errs) := Collect(p.fetch, ids);
      var retrieved :- FormatAll(decode, oks);
      Success(Report(retrieved, errs))
  }

  /** The report opens by stating how many messages were retrieved. */
  lemma ReportReadBack(retrieved: seq<(string, string)>, failed: seq<(string, string)>)
    ensures var ls := Split(Report(retrieved, failed), '\n');
      && |ls| >= 1
      && ls[0] == "Retrieved " + NatToString(|retrieved|) + " emails:"
  {
    var n := |retrieved|;
    NumberSingleLine(n);
    SingleLineAppend("Retrieved ", NatToString(n));
    SingleLineAppend("Retrieved " + NatToString(n), " emails:");
    var blocks := Concat(Numbered(RetrievedBlock, 1, retrieved));
    if |failed| == 0 {
      FirstLine(RetrievedLine(n), blocks);
    } else {
      FirstLine(RetrievedLine(n), blocks + (FailedHead(|failed|) + Concat(Numbered(FailedBlock, 1, failed))));
    }
  }

  /** The report opens by stating how many of the ids were retrieved, and the
      retrieved and failed counts add up to the number of ids. */
  lemma LegacyGetEmailsReadBack(decode: string -> string, p: LegacyProvider, ids: seq<string>)
    requires |ids| > 0
    requires LegacyGetEmails(decode, p, ids).Success?
    ensures var ls := Split(LegacyGetEmails(decode, p, ids).value, '\n');
      && |ls| >= 1
      && ls[0] == "Retrieved " + NatToString(CountSuccesses(p.fetch, ids)) + " emails:"
    ensures |Collect(p.fetch, ids).0| + |Collect(p.fetch, ids).1| == |ids|
  {
    var (oks, errs) := Collect(p.fetch, ids);
    ReportReadBack(FormatAll(decode, oks).value, errs);
  }

  // ---------------------------------------------------------------------------
  // Label tools

  /** `mark_message_read`: remove `UNREAD` and confirm with the subject of the
      modified message. */
  function MarkMessageRead(p: LegacyProvider, messageId: string): (r: Result<string>)
    ensures p.modifyLabels(messageId, ["UNREAD"], []).Failure? ==> r == Failure(p.modifyLabels(messageId, ["UNREAD"], []).error)
    ensures p.modifyLabels(messageId, ["UNREAD"], []).Success? ==>
      r == Success(ReadConfirmation(messageId, ShownHeaders(p.modifyLabels(messageId, ["UNREAD"], []).value).2))
  {
    var m :- p.modifyLabels(messageId, ["UNREAD"], []);
    Success(ReadConfirmation(messageId, ShownHeaders(m).2))
  }

  /** The lines every label confirmation starts with. */
  function ActionLines(title: string, messageId: string, subject: string): seq<string> {
    ["", title, "ID: " + messageId, "Subject: " + subject]
  }

  function ReadConfirmation(messageId: string, subject: string): string {
    Document(ActionLines("Message marked as read:", messageId, subject))
  }

  function LabelConfirmation(title: string, what: string, messageId: string, subject: string, labelName: string, labelId: string): string {
    Document(ActionLines(title, messageId, subject) + [what + labelName + " (" + labelId + ")"])
  }

  lemma ActionLabelsSingle()
    ensures SingleLine("ID: ") && SingleLine("Subject: ") && SingleLine(" (") && SingleLine(")")
    ensures SingleLine("Message marked as read:")
  {
  }

  lemma ActionLinesSingle(title: string, messageId: string, subject: string)
    requires SingleLine(title) && SingleLine(messageId) && SingleLine(subject)
    ensures forall i :: 0 <= i < |ActionLines(title, messageId, subject)| ==> '\n' !in ActionLines(title, messageId, subject)[i]
  {
    ActionLabelsSingle();
    SingleLineAppend("ID: ", messageId);
    SingleLineAppend("Subject: ", subject);
  }

  /** Read back, the read confirmation is a blank line, the headline, the id and
      the subject, one per line. */
  lemma ReadConfirmationReadBack(messageId: string, subject: string)
    requires SingleLine(messageId) && SingleLine(subject)
    ensures Split(ReadConfirmation(messageId, subject), '\n')
      == ["", "Message marked as read:", "ID: " + messageId, "Subject: " + subject]
  {
    var lines := ActionLines("Message marked as read:", messageId, subject);
    ActionLabelsSingle();
    ActionLinesSingle("Message marked as read:", messageId, subject);
    SplitDocumentAll(lines, "");
    assert Document(lines) + "" == Document(lines);
  }

  /** Read back, a label confirmation is a blank line, the headline, the id, the
      subject and the label line naming the label and its id, one per line. */
  lemma LabelConfirmationReadBack(title: string, what: string, messageId: string, subject: string, labelName: string, labelId: string)
    requires SingleLine(title) && SingleLine(what) && SingleLine(messageId) && SingleLine(subject)
    requires SingleLine(labelName) && SingleLine(labelId)
    ensures Split(LabelConfirmation(title, what, messageId, subject, labelName, labelId), '\n')
      == ["", title, "ID: " + messageId, "Subject: " + subject, what + labelName + " (" + labelId + ")"]
  {
    var last := what + labelName + " (" + labelId + ")";
    assert SingleLine(last) by {
      ActionLabelsSingle();
      SingleLineAppend(what, labelName);
      SingleLineAppend(what + labelName, " (");
      SingleLineAppend(what + labelName + " (", labelId);
      SingleLineAppend(what + labelName + " (" + labelId, ")");
    }
    var lines := ActionLines(title, messageId, subject) + [last];
    assert forall i :: 0 <= i < |lines| ==> '\n' !in lines[i] by {
      ActionLinesSingle(title, messageId, subject);
    }
    SplitDocumentAll(lines, "");
    assert Document(lines) + "" == Document(lines);
  }

  /** `add_label_to_message`: modify first, then look up the label's name. */
  function AddLabelToMessage(p: LegacyProvider, messageId: string, labelId: string): (r: Result<string>)
    ensures p.modifyLabels(messageId, [], [labelId]).Failure? ==> r == Failure(p.modifyLabels(messageId, [], [labelId]).error)
    ensures p.modifyLabels(messageId, [], [labelId]).Success? && p.labels.Failure? ==> r == Failure(p.labels.error)
    ensures r.Success? <==> p.modifyLabels(messageId, [], [labelId]).Success? && p.labels.Success?
    ensures r.Success? ==> r.value == LabelConfirmation("Label added to message:", "Added Label: ", messageId,
      ShownHeaders(p.modifyLabels(messageId, [], [labelId]).value).2, LabelName(p.labels.value, labelId), labelId)
  {
    var m :- p.modifyLabels(messageId, [], [labelId]);
    var labels :- p.labels;
    Success(LabelConfirmation("Label added to message:", "Added Label: ", messageId, ShownHeaders(m).2, LabelName(labels, labelId), labelId))
  }

  /** `remove_label_from_message`: look up the label's name first, then modify. */
  function RemoveLabelFromMessage(p: LegacyProvider, messageId: string, labelId: string): (r: Result<string>)
    ensures p.labels.Failure? ==> r == Failure(p.labels.error)
    ensures p.labels.Success? && p.modifyLabels(messageId, [labelId], []).Failure? ==>
      r == Failure(p.modifyLabels(messageId, [labelId], []).error)
    ensures r.Success? <==> p.labels.Success? && p.modifyLabels(messageId, [labelId], []).Success?
    ensures r.Success? ==> r.value == LabelConfirmation("Label removed from message:", "Removed Label: ", messageId,
      ShownHeaders(p.modifyLabels(messageId, [labelId], []).value).2, LabelName(p.labels.value, labelId), labelId)
  {
    var labels :- p.labels;
    var m :- p.modifyLabels(messageId, [labelId], []);
    Success(LabelConfirmation("Label removed from message:", "Removed Label: ", messageId, ShownHeaders(m).2, LabelName(labels, labelId), labelId))
  }

  // ---------------------------------------------------------------------------
  // compose_email and send_email

  /** The body preview of the older server: the first 200 characters, then `...`
      exactly when something was cut. */
  function LegacyPreview(body: string): (r: string)
    ensures |body| <= PreviewLength ==> r == body
    ensures |body| > PreviewLength ==>
      |r| == PreviewLength + 3 && r[..PreviewLength] == body[..PreviewLength] && r[PreviewLength..] == "..."
  {
    (if |body| > PreviewLength then body[..PreviewLength] else body) + (if |body| > PreviewLength then "..." else "")
  }

  /** The two generations cut the body the same way and differ only in the
      ellipsis. */
  lemma PreviewsAgree(body: string)
    ensures LegacyPreview(body) == BodyPreview(body) + (if |body| > PreviewLength then "..." else "")
  {
  }

  /** Python's `value or ""` for an optional text. */
  function OrEmpty(o: Option<string>): (r: string)
    ensures Filled(o) ==> r == o.value
    ensures !Filled(o) ==> r == ""
  {
    if o.Some? then o.value else ""
  }

  /** An id as an f-string shows it: `None` when the provider returned none. */
  function IdText(id: Option<string>): string {
    if id.Some? then id.value else "None"
  }

  /** The confirmation text of `compose_email` and `send_email`. */
  function Confirmation(headline: string, to: string, subject: string, body: string, cc: Option<string>, bcc: Option<string>): string {
    Document(["", headline, "To: " + to, "Subject: " + subject, "CC: " + OrEmpty(cc), "BCC: " + OrEmpty(bcc),
      "Body: " + LegacyPreview(body)])
  }

  /** `compose_email`, given the id of the draft the provider created. */
  function ComposeEmail(draftId: Option<string>, to: string, subject: string, body: string, cc: Option<string>, bcc: Option<string>): string {
    Confirmation("Email draft created with ID: " + IdText(draftId), to, subject, body, cc, bcc)
  }

  /** `send_email`, given the id of the message the provider sent. */
  function SendEmail(messageId: Option<string>, to: string, subject: string, body: string, cc: Option<string>, bcc: Option<string>): string {
    Confirmation("Email sent successfully with ID: " + IdText(messageId), to, subject, body, cc, bcc)
  }

  /** Read back, the confirmation names the id, the recipients and the subject on
      their own lines, and ends with the preview. */
  lemma ConfirmationReadBack(headline: string, to: string, subject: string, body: string, cc: Option<string>, bcc: Option<string>)
    requires SingleLine(headline) && SingleLine(to) && SingleLine(subject)
    requires SingleLine(OrEmpty(cc)) && SingleLine(OrEmpty(bcc))
    ensures var ls := Split(Confirmation(headline, to, subject, body, cc, bcc), '\n');
      && |ls| >= 6
      && ls[1] == headline
      && ls[2] == "To: " + to
      && ls[3] == "Subject: " + subject
      && ls[4] == "CC: " + OrEmpty(cc)
      && ls[5] == "BCC: " + OrEmpty(bcc)
  {
    var lines := ["", headline, "To: " + to, "Subject: " + subject, "CC: " + OrEmpty(cc), "BCC: " + OrEmpty(bcc),
      "Body: " + LegacyPreview(body)];
    SingleLineAppend("To: ", to);
    SingleLineAppend("Subject: ", subject);
    SingleLineAppend("CC: ", OrEmpty(cc));
    SingleLineAppend("BCC: ", OrEmpty(bcc));
    forall i | 0 <= i <= 5 ensures SingleLine(lines[i]) {
      assert i == 0 || i == 1 || i == 2 || i == 3 || i == 4 || i == 5;
    }
    assert Confirmation(headline, to, subject, body, cc, bcc) == Document(lines) + "";
    SplitDocumentAt(lines, "", 1);
    SplitDocumentAt(lines, "", 2);
    SplitDocumentAt(lines, "", 3);
    SplitDocumentAt(lines, "", 4);
    SplitDocumentAt(lines, "", 5);
  }

  /** Read back, a draft confirmation and a send confirmation name the id on line
      1 and agree on the recipients and the subject below it. */
  lemma ComposeSendReadBack(id: Option<string>, to: string, subject: string, body: string, cc: Option<string>, bcc: Option<string>)
    requires SingleLine(IdText(id)) && SingleLine(to) && SingleLine(subject)
    requires SingleLine(OrEmpty(cc)) && SingleLine(OrEmpty(bcc))
    ensures var c, s := Split(ComposeEmail(id, to, subject, body, cc, bcc), '\n'), Split(SendEmail(id, to, subject, body, cc, bcc), '\n');
      && |c| >= 6 && |s| >= 6
      && c[1] == "Email draft created with ID: " + IdText(id)
      && s[1] == "Email sent successfully with ID: " + IdText(id)
      && c[2..6] == s[2..6]
  {
    var hc, hs := "Email draft created with ID: " + IdText(id), "Email sent successfully with ID: " + IdText(id);
    var c := Split(Confirmation(hc, to, subject, body, cc, bcc), '\n');
    var s := Split(Confirmation(hs, to, subject, body, cc, bcc), '\n');
    assert |c| >= 6 && c[1] == hc && c[2] == "To: " + to && c[3] == "Subject: " + subject
        && c[4] == "CC: " + OrEmpty(cc) && c[5] == "BCC: " + OrEmpty(bcc) by {
      HeadlinesSingleLine(id);
      ConfirmationReadBack(hc, to, subject, body, cc, bcc);
    }
    assert |s| >= 6 && s[1] == hs && s[2] == "To: " + to && s[3] == "Subject: " + subject
        && s[4] == "CC: " + OrEmpty(cc) && s[5] == "BCC: " + OrEmpty(bcc) by {
      HeadlinesSingleLine(id);
      ConfirmationReadBack(hs, to, subject, body, cc, bcc);
    }
    assert c[2..6] == s[2..6];
  }

  lemma HeadlinesSingleLine(id: Option<string>)
    requires SingleLine(IdText(id))
    ensures SingleLine("Email draft created with ID: " + IdText(id))
    ensures SingleLine("Email sent successfully with ID: " + IdText(id))
  {
    SingleLineAppend("Email draft created with ID: ", IdText(id));
    SingleLineAppend("Email sent successfully with ID: ", IdText(id));
  }
}
