/** The MIME part tree of a message payload and the three walks over it:
    plain-text body extraction (`parse_message_body`, the same in both
    generations), attachment discovery (`list_message_attachments`) and the
    shallow attachment check (`check_message_has_attachments`). */
module Mime {
  import opened Wrappers
  import opened Strings

  /** One node of the payload tree. The `body` object is folded into the part:
      `data`, `attachmentId` and `size` are its optional keys. */
  datatype Part = Part(
    mimeType: Option<string>,
    filename: Option<string>,
    data: Option<string>,
    attachmentId: Option<string>,
    size: Option<nat>,
    parts: PartsKey)

  /** The `parts` key of a part: absent, which is different from an empty list,
      or present with the child parts. */
  datatype PartsKey = Absent | Present(list: seq<Part>)

  /** The number of parts in a tree, and in a list of trees. */
  function PartSize(p: Part): nat {
    1 + (if p.parts.Present? then ForestSize(p.parts.list) else 0)
  }

  function ForestSize(ps: seq<Part>): nat {
    if |ps| == 0 then 0 else PartSize(ps[0]) + ForestSize(ps[1..])
  }

  /** Both the first part's children and the remaining parts are smaller than the list. */
  lemma ForestSizeSplit(ps: seq<Part>)
    requires |ps| > 0
    ensures ForestSize(ps[1..]) < ForestSize(ps)
    ensures ps[0].parts.Present? ==> ForestSize(ps[0].parts.list) < ForestSize(ps)
  {
  }

  /** The error Python's `part['mimeType']` raises on a part without that key. */
  const MissingMimeType: string := "'mimeType'"

  const PlainText: string := "text/plain"

  /** The walk descends into a part only when it has a type other than
      `text/plain` and carries children. */
  predicate Descends(p: Part) {
    p.mimeType.Some? && p.mimeType.value != PlainText && p.parts.Present?
  }

  /** What one visited part adds to the body: the decoded data of a `text/plain`
      part that has data, nothing otherwise. */
  function Contribution(decode: string -> string, p: Part): string {
    if p.mimeType == Some(PlainText) && p.data.Some? then decode(p.data.value) else ""
  }

  // ---------------------------------------------------------------------------
  // Plain-text body

  /** `get_text_part`: a left-to-right loop that appends each `text/plain` part's
      decoded data and recurses into the children of every other part. */
  function TextOf(decode: string -> string, parts: seq<Part>): Result<string>
    decreases ForestSize(parts)
  {
    if |parts| == 0 then Success("")
    else
      var p := parts[0];
      ForestSizeSplit(parts);
      if p.mimeType.None? then Failure(MissingMimeType)
      else
        var here := if Descends(p) then TextOf(decode, p.parts.list) else Success(Contribution(decode, p));
        match here
        case Failure(e) => Failure(e)
        case Success(t) =>
          match TextOf(decode, parts[1..])
          case Failure(e) => Failure(e)
          case Success(rest) => Success(t + rest)
  }

  /** The parts the body walk looks at, in the order it looks at them: each part
      of the list, followed by the parts reached below it when it descends. */
  function Reached(parts: seq<Part>): seq<Part>
    decreases ForestSize(parts)
  {
    if |parts| == 0 then []
    else
      var p := parts[0];
      ForestSizeSplit(parts);
      [p] + (if Descends(p) then Reached(p.parts.list) else []) + Reached(parts[1..])
  }

  predicate AllTyped(ps: seq<Part>) {
    forall i :: 0 <= i < |ps| ==> ps[i].mimeType.Some?
  }

  function Contributions(decode: string -> string, ps: seq<Part>): seq<string> {
    seq(|ps|, i requires 0 <= i < |ps| => Contribution(decode, ps[i]))
  }

  lemma ContributionsAppend(decode: string -> string, a: seq<Part>, b: seq<Part>)
    ensures Contributions(decode, a + b) == Contributions(decode, a) + Contributions(decode, b)
  {
  }

  lemma AllTypedAppend(a: seq<Part>, b: seq<Part>)
    ensures AllTyped(a + b) <==> AllTyped(a) && AllTyped(b)
  {
    if AllTyped(a + b) {
      forall i | 0 <= i < |a| ensures a[i].mimeType.Some? {
        assert (a + b)[i] == a[i];
      }
      forall i | 0 <= i < |b| ensures b[i].mimeType.Some? {
        assert (a + b)[|a| + i] == b[i];
      }
    }
  }

  /** What the walk makes of the parts reached from a list: fails on a part
      without a type, otherwise the concatenated contributions. */
  function Summary(decode: string -> string, ps: seq<Part>): Result<string> {
    if AllTyped(ps) then Success(Concat(Contributions(decode, ps))) else Failure(MissingMimeType)
  }

  /** The summary of two stretches is the first's followed by the second's. */
  lemma SummaryAppend(decode: string -> string, a: seq<Part>, b: seq<Part>)
    ensures Summary(decode, a + b) ==
      match Summary(decode, a)
      case Failure(e) => Failure(e)
      case Success(t) =>
        match Summary(decode, b)
        case Failure(e) => Failure(e)
        case Success(u) => Success(t + u)
  {
    AllTypedAppend(a, b);
    ContributionsAppend(decode, a, b);
    ConcatAppend(Contributions(decode, a), Contributions(decode, b));
  }

  /** The summary of the parts reached from the first part of a list. */
  lemma SummaryHead(decode: string -> string, p: Part, below: seq<Part>)
    requires p.mimeType.Some?
    requires !Descends(p) ==> below == []
    ensures Summary(decode, [p] + below) == if Descends(p) then Summary(decode, below) else Success(Contribution(decode, p))
  {
    SummaryAppend(decode, [p], below);
    assert Concat(Contributions(decode, [p])) == Contribution(decode, p) by {
      assert Contributions(decode, [p]) == [Contribution(decode, p)];
      assert [Contribution(decode, p)][1..] == [];
    }
    assert AllTyped([p]);
    if Descends(p) {
      assert Contribution(decode, p) == "";
      match Summary(decode, below)
      case Failure(_) =>
      case Success(u) => assert "" + u == u;
    } else {
      assert Summary(decode, below) == Success("");
    }
  }

  /** The body walk, described without its loop: it fails exactly when some part
      it reaches has no MIME type, and otherwise returns the contributions of the
      reached parts, concatenated in visiting order. */
  lemma {:induction false} TextOfReached(decode: string -> string, parts: seq<Part>)
    ensures TextOf(decode, parts) ==
      if AllTyped(Reached(parts)) then Success(Concat(Contributions(decode, Reached(parts))))
      else Failure(MissingMimeType)
    decreases ForestSize(parts)
  {
    if |parts| > 0 {
      var p := parts[0];
      ForestSizeSplit(parts);
      var below := if Descends(p) then Reached(p.parts.list) else [];
      var rest := Reached(parts[1..]);
      assert Reached(parts) == [p] + below + rest;
      if Descends(p) {
        TextOfReached(decode, p.parts.list);
      }
      TextOfReached(decode, parts[1..]);
      SummaryAppend(decode, [p] + below, rest);
      if p.mimeType.Some? {
        SummaryHead(decode, p, below);
      } else {
        assert !AllTyped([p] + below + rest) by {
          assert ([p] + below + rest)[0] == p;
        }
      }
      assert TextOf(decode, parts) == Summary(decode, Reached(parts));
    }
  }

  /** `parse_message_body`: the text walk on a multipart payload; on a single-part
      payload the decoded body data whatever the MIME type, or `''` without data. */
  function ExtractBody(decode: string -> string, payload: Part): (r: Result<string>)
    ensures payload.parts.Absent? ==> r == Success(if payload.data.Some? then decode(payload.data.value) else "")
    ensures payload.parts.Present? ==>
      r == if AllTyped(Reached(payload.parts.list)) then Success(Concat(Contributions(decode, Reached(payload.parts.list))))
           else Failure(MissingMimeType)
  {
    if payload.parts.Present? then
      TextOfReached(decode, payload.parts.list);
      TextOf(decode, payload.parts.list)
    else if payload.data.Some? then Success(decode(payload.data.value))
    else Success("")
  }

  /** The walk never looks below a `text/plain` part: its children can be replaced
      by anything without changing the body. */
  lemma PlainChildrenIgnored(decode: string -> string, p: Part, children: PartsKey, rest: seq<Part>)
    requires p.mimeType == Some(PlainText)
    ensures TextOf(decode, [p.(parts := children)] + rest) == TextOf(decode, [p] + rest)
  {
    assert ([p.(parts := children)] + rest)[1..] == rest;
    assert ([p] + rest)[1..] == rest;
  }

  /** Parts of other types without children add nothing: an HTML-only multipart
      message has the empty body. */
  lemma {:induction false} OtherLeavesSilent(decode: string -> string, parts: seq<Part>)
    requires forall i :: 0 <= i < |parts| ==> parts[i].mimeType.Some? && parts[i].mimeType != Some(PlainText) && parts[i].parts.Absent?
    ensures TextOf(decode, parts) == Success("")
  {
    if |parts| > 0 {
      OtherLeavesSilent(decode, parts[1..]);
    }
  }

  /** Two plain-text parts side by side give their decoded data in order; a
      `multipart/alternative` container is looked into. */
  lemma BodyExample(decode: string -> string)
    ensures var html := Part(Some("text/html"), None, Some("h"), None, None, Absent);
      var plain := Part(Some(PlainText), None, Some("p"), None, None, Absent);
      var alt := Part(Some("multipart/alternative"), None, None, None, None, Present([plain, html]));
      ExtractBody(decode, Part(Some("multipart/mixed"), None, None, None, None, Present([alt, plain])))
        == Success(decode("p") + decode("p"))
  {
    var html := Part(Some("text/html"), None, Some("h"), None, None, Absent);
    var plain := Part(Some(PlainText), None, Some("p"), None, None, Absent);
    var alt := Part(Some("multipart/alternative"), None, None, None, None, Present([plain, html]));
    assert [html][1..] == [] && [plain][1..] == [];
    assert TextOf(decode, [html]) == Success("");
    assert Contribution(decode, plain) == decode("p");
    assert decode("p") + "" == decode("p");
    assert TextOf(decode, [plain]) == Success(decode("p"));
    assert [plain, html][1..] == [html];
    assert TextOf(decode, [plain, html]) == Success(decode("p"));
    assert [alt, plain][1..] == [plain];
  }

  // ---------------------------------------------------------------------------
  // Attachment discovery

  /** One entry of the attachment list (`AttachmentInfo`). */
  datatype Attachment = Attachment(filename: string, attachmentId: string, mimeType: string, size: nat)

  const DefaultMimeType: string := "application/octet-stream"

  /** A part is reported when it has a non-empty filename and a non-empty attachment id. */
  predicate Reported(p: Part) {
    Filled(p.filename) && Filled(p.attachmentId)
  }

  /** The entry for a reported part, with the type and size defaults applied. */
  function Entry(p: Part): (a: Attachment)
    requires Reported(p)
    ensures a.filename == p.filename.value && a.attachmentId == p.attachmentId.value
    ensures a.mimeType == (if p.mimeType.Some? then p.mimeType.value else DefaultMimeType)
    ensures a.size == (if p.size.Some? then p.size.value else 0)
  {
    Attachment(p.filename.value, p.attachmentId.value, p.mimeType.GetOr(DefaultMimeType), p.size.GetOr(0))
  }

  /** `_find_attachments`: report the part, then recurse into its children whether
      or not it was reported. */
  function FindAttachments(parts: seq<Part>): seq<Attachment>
    decreases ForestSize(parts)
  {
    if |parts| == 0 then []
    else
      var p := parts[0];
      ForestSizeSplit(parts);
      (if Reported(p) then [Entry(p)] else [])
        + (if p.parts.Present? then FindAttachments(p.parts.list) else [])
        + FindAttachments(parts[1..])
  }

  /** Every part of a list of trees, in pre-order. */
  function AllParts(parts: seq<Part>): seq<Part>
    decreases ForestSize(parts)
  {
    if |parts| == 0 then []
    else
      var p := parts[0];
      ForestSizeSplit(parts);
      [p] + (if p.parts.Present? then AllParts(p.parts.list) else []) + AllParts(parts[1..])
  }

  /** The entries of the reported parts of a flat list, in order. */
  function EntriesOf(ps: seq<Part>): seq<Attachment> {
    if |ps| == 0 then [] else EntryOf(ps[0]) + EntriesOf(ps[1..])
  }

  /** The entry of one part, if it is reported. */
  function EntryOf(p: Part): seq<Attachment> {
    if Reported(p) then [Entry(p)] else []
  }

  lemma {:induction false} EntriesOfAppend(a: seq<Part>, b: seq<Part>)
    ensures EntriesOf(a + b) == EntriesOf(a) + EntriesOf(b)
  {
    if |a| == 0 {
      assert a + b == b;
    } else {
      assert (a + b)[0] == a[0];
      assert (a + b)[1..] == a[1..] + b;
      EntriesOfAppend(a[1..], b);
      AppendAssoc(EntryOf(a[0]), EntriesOf(a[1..]), EntriesOf(b));
    }
  }

  /** An entry is produced exactly when some reported part of the list produces it. */
  lemma {:induction false} EntriesOfMember(ps: seq<Part>, a: Attachment)
    ensures a in EntriesOf(ps) <==> exists p :: p in ps && Reported(p) && Entry(p) == a
  {
    if |ps| > 0 {
      EntriesOfMember(ps[1..], a);
      assert ps == [ps[0]] + ps[1..];
      if a in EntriesOf(ps[1..]) {
        var p :| p in ps[1..] && Reported(p) && Entry(p) == a;
        assert p in ps;
      }
    }
  }

  /** The attachment walk is "take every part in pre-order, keep the reported
      ones, make an entry of each". */
  lemma {:induction false} FindAttachmentsPreorder(parts: seq<Part>)
    ensures FindAttachments(parts) == EntriesOf(AllParts(parts))
    decreases ForestSize(parts)
  {
    if |parts| > 0 {
      var p := parts[0];
      ForestSizeSplit(parts);
      var below := if p.parts.Present? then AllParts(p.parts.list) else [];
      var rest := AllParts(parts[1..]);
      if p.parts.Present? {
        FindAttachmentsPreorder(p.parts.list);
      }
      FindAttachmentsPreorder(parts[1..]);
      assert AllParts(parts) == [p] + below + rest;
      EntriesOfAppend([p] + below, rest);
      EntriesOfAppend([p], below);
      assert EntriesOf([p]) == if Reported(p) then [Entry(p)] else [] by {
        assert [p][1..] == [];
      }
    }
  }

  /** An entry is listed exactly when some part anywhere in the tree is reported
      and produces it; nested attachments are found too. */
  lemma FindAttachmentsMember(parts: seq<Part>, a: Attachment)
    ensures a in FindAttachments(parts) <==> exists p :: p in AllParts(parts) && Reported(p) && Entry(p) == a
  {
    FindAttachmentsPreorder(parts);
    EntriesOfMember(AllParts(parts), a);
  }

  /** `list_message_attachments` on a payload: the walk over its parts when it is
      multipart, otherwise at most the payload itself. */
  function ListAttachments(payload: Part): (r: seq<Attachment>)
    ensures payload.parts.Absent? ==> |r| <= 1
    ensures payload.parts.Absent? ==> (|r| == 1 <==> Reported(payload))
    ensures payload.parts.Absent? && Reported(payload) ==> r == [Entry(payload)]
    ensures payload.parts.Present? ==> r == EntriesOf(AllParts(payload.parts.list))
  {
    if payload.parts.Present? then
      FindAttachmentsPreorder(payload.parts.list);
      FindAttachments(payload.parts.list)
    else if Reported(payload) then [Entry(payload)]
    else []
  }

  // ---------------------------------------------------------------------------
  // The shallow attachment check

  function AnyNamed(parts: seq<Part>): (r: bool)
    ensures r <==> exists i :: 0 <= i < |parts| && Filled(parts[i].filename)
  {
    if |parts| == 0 then false
    else if Filled(parts[0].filename) then true
    else
      var r := AnyNamed(parts[1..]);
      assert forall i :: 1 <= i < |parts| ==> parts[i] == parts[1..][i - 1];
      r
  }

  /** `check_message_has_attachments`: true exactly when the payload has a parts
      list and one of its immediate parts has a non-empty filename. */
  function HasAttachments(payload: Part): (r: bool)
    ensures r <==> payload.parts.Present? && exists i :: 0 <= i < |payload.parts.list| && Filled(payload.parts.list[i].filename)
  {
    payload.parts.Present? && AnyNamed(payload.parts.list)
  }

  /** The check is shallow: an attachment nested one level down is listed by the
      walk but not seen by the check, and a single-part attachment is never seen. */
  lemma HasAttachmentsShallow()
    ensures var pdf := Part(Some("application/pdf"), Some("a.pdf"), None, Some("att1"), Some(10), Absent);
      var mixed := Part(Some("multipart/mixed"), Some(""), None, None, None, Present([pdf]));
      var payload := Part(Some("multipart/mixed"), Some(""), None, None, None, Present([mixed]));
      && ListAttachments(payload) == [Attachment("a.pdf", "att1", "application/pdf", 10)]
      && !HasAttachments(payload)
      && ListAttachments(pdf) == [Attachment("a.pdf", "att1", "application/pdf", 10)]
      && !HasAttachments(pdf)
  {
    var pdf := Part(Some("application/pdf"), Some("a.pdf"), None, Some("att1"), Some(10), Absent);
    var mixed := Part(Some("multipart/mixed"), Some(""), None, None, None, Present([pdf]));
    assert FindAttachments([pdf]) == [Attachment("a.pdf", "att1", "application/pdf", 10)];
    assert FindAttachments([mixed]) == FindAttachments([pdf]);
  }
}
