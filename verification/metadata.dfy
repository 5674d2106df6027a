/** Messages, their header map and the metadata record built from them
    (`get_headers_dict`, `format_email_date`, `get_gmail_web_url` and
    `build_email_metadata`). */
module Metadata {
  import opened Wrappers
  import opened Strings
  import opened Mime

  /** One entry of `payload.headers`. */
  datatype Header = Header(name: string, value: string)

  /** A message as the provider returns it. The optional fields are keys the
      source reads with a default; `headers` are the payload's headers. */
  datatype Message = Message(
    id: Option<string>,
    threadId: Option<string>,
    labelIds: Option<seq<string>>,
    headers: seq<Header>,
    payload: Part)

  /** What the adapter needs from its environment: the base64url-and-UTF-8 decoder
      of body data, and the RFC 2822 date reformatter (`None` when the text does
      not parse). */
  datatype Env = Env(decode: string -> string, reformatDate: string -> Option<string>)

  // ---------------------------------------------------------------------------
  // Header map

  /** `i` is the last position at which a header with this name occurs. */
  predicate IsLastOccurrence(hs: seq<Header>, i: int) {
    0 <= i < |hs| && forall j :: i < j < |hs| ==> hs[j].name != hs[i].name
  }

  /** The header names that occur. */
  function Names(hs: seq<Header>): set<string> {
    set i | 0 <= i < |hs| :: hs[i].name
  }

  /** `d` is the dict of the headers `hs`: its keys are exactly the names that
      occur (compared case-sensitively) and, when a name repeats, the last
      occurrence's value wins. */
  ghost predicate IsHeaderMap(d: map<string, string>, hs: seq<Header>) {
    && d.Keys == Names(hs)
    && (forall i :: IsLastOccurrence(hs, i) ==> hs[i].name in d && d[hs[i].name] == hs[i].value)
  }

  /** `get_headers_dict`: assigning the headers into a dict in order. */
  function HeadersDict(hs: seq<Header>): (d: map<string, string>)
    ensures IsHeaderMap(d, hs)
  {
    if |hs| == 0 then map[]
    else
      var init, h := hs[..|hs| - 1], hs[|hs| - 1];
      var d := HeadersDict(init);
      assert hs == init + [h];
      HeadersDictStep(d, init, h);
      d[h.name := h.value]
  }

  /** Assigning one more header keeps the map a header map. */
  lemma HeadersDictStep(d: map<string, string>, init: seq<Header>, h: Header)
    requires IsHeaderMap(d, init)
    ensures IsHeaderMap(d[h.name := h.value], init + [h])
  {
    var hs := init + [h];
    var e := d[h.name := h.value];
    assert Names(hs) == Names(init) + {h.name} by {
      forall k | k in Names(hs) ensures k in Names(init) + {h.name} {
        var i :| 0 <= i < |hs| && hs[i].name == k;
        if i < |init| {
          assert init[i] == hs[i];
        }
      }
      forall k | k in Names(init) ensures k in Names(hs) {
        var i :| 0 <= i < |init| && init[i].name == k;
        assert hs[i] == init[i];
      }
      assert hs[|init|] == h;
    }
    forall i | IsLastOccurrence(hs, i) ensures hs[i].name in e && e[hs[i].name] == hs[i].value {
      if i < |init| {
        assert hs[|init|].name != hs[i].name;
        assert hs[i] == init[i];
        assert IsLastOccurrence(init, i) by {
          forall j | i < j < |init| ensures init[j].name != init[i].name {
            assert hs[j] == init[j];
          }
        }
      }
    }
  }

  /** Python's `dict.get(key, default)`. */
  function Get(d: map<string, string>, key: string, default: string): string {
    if key in d then d[key] else default
  }

  /** A header of a message, or the default when the message has none by that name. */
  function HeaderOr(m: Message, name: string, default: string): string {
    Get(HeadersDict(m.headers), name, default)
  }

  /** The value of the last header called `name`, if there is one. */
  ghost predicate LastValueIs(hs: seq<Header>, name: string, v: string) {
    exists i :: IsLastOccurrence(hs, i) && hs[i].name == name && hs[i].value == v
  }

  ghost predicate NoHeader(hs: seq<Header>, name: string) {
    forall i :: 0 <= i < |hs| ==> hs[i].name != name
  }

  /** A name has a last occurrence whenever it occurs at all. */
  lemma {:induction false} LastOccurrenceExists(hs: seq<Header>, i: int)
    requires 0 <= i < |hs|
    ensures exists j :: IsLastOccurrence(hs, j) && hs[j].name == hs[i].name
    decreases |hs| - i
  {
    if !IsLastOccurrence(hs, i) {
      var j :| i < j < |hs| && hs[j].name == hs[i].name;
      LastOccurrenceExists(hs, j);
    }
  }

  /** A lookup gives the last occurrence's value, or the default when the name
      never occurs. */
  lemma HeaderOrLastWins(m: Message, name: string, default: string)
    ensures NoHeader(m.headers, name) ==> HeaderOr(m, name, default) == default
    ensures !NoHeader(m.headers, name) ==> LastValueIs(m.headers, name, HeaderOr(m, name, default))
  {
    if !NoHeader(m.headers, name) {
      var i :| 0 <= i < |m.headers| && m.headers[i].name == name;
      LastOccurrenceExists(m.headers, i);
    }
  }

  /** Two `Subject` headers: the second one is the subject. */
  lemma HeadersDictExample()
    ensures HeadersDict([Header("Subject", "a"), Header("subject", "b"), Header("Subject", "c")])
      == map["Subject" := "c", "subject" := "b"]
  {
    var hs := [Header("Subject", "a"), Header("subject", "b"), Header("Subject", "c")];
    assert hs[..2] == [Header("Subject", "a"), Header("subject", "b")];
    assert hs[..2][..1] == [Header("Subject", "a")];
    assert [Header("Subject", "a")][..0] == [];
  }

  // ---------------------------------------------------------------------------
  // Dates and links

  const UnknownDate: string := "Unknown Date"

  /** `format_email_date`: an empty text or the `Unknown Date` placeholder stays
      `Unknown Date`; otherwise the reformatted date, or the original text when it
      does not parse. */
  function FormatEmailDate(env: Env, s: string): string {
    if s == "" || s == UnknownDate then UnknownDate
    else
      match env.reformatDate(s)
      case Some(formatted) => formatted
      case None => s
  }

  const WebUrlPrefix: string := "https://mail.google.com/mail/u/"
  const WebUrlMiddle: string := "/#all/"

  /** `get_gmail_web_url(message_id, account_index)`. */
  function WebUrl(messageId: string, account: nat): (r: string)
    ensures StartsWith(r, WebUrlPrefix)
  {
    WebUrlPrefix + NatToString(account) + WebUrlMiddle + messageId
  }

  /** Reads a web link back into its account index and message id; the index
      must be written as `str` writes it, without leading zeros. */
  function ParseWebUrl(url: string): Option<(nat, string)> {
    if !StartsWith(url, WebUrlPrefix) then None
    else
      var rest := url[|WebUrlPrefix|..];
      var i := IndexOf(rest, '/');
      var digits := rest[..i];
      if Canonical(digits) && StartsWith(rest[i..], WebUrlMiddle) then
        Some((DigitsValue(digits), rest[i + |WebUrlMiddle|..]))
      else None
  }

  /** The link determines the message: parsing it gives back the account index
      and the message id. */
  lemma ParseWebUrlRoundTrip(messageId: string, account: nat)
    ensures ParseWebUrl(WebUrl(messageId, account)) == Some((account, messageId))
  {
    var url := WebUrl(messageId, account);
    var digits := NatToString(account);
    var rest := url[|WebUrlPrefix|..];
    assert rest == digits + WebUrlMiddle + messageId;
    assert forall j :: 0 <= j < |digits| ==> rest[j] == digits[j] && rest[j] != '/';
    assert rest[|digits|] == '/';
    assert IndexOf(rest, '/') == |digits|;
    assert rest[..|digits|] == digits;
    assert rest[|digits|..] == WebUrlMiddle + messageId;
    assert rest[|digits| + |WebUrlMiddle|..] == messageId;
    NatToStringRoundTrip(account);
  }

  /** Only built links parse: a link that reads back as an account index and a
      message id is exactly the link built from them. */
  lemma ParseWebUrlExact(url: string)
    requires ParseWebUrl(url).Some?
    ensures url == WebUrl(ParseWebUrl(url).value.1, ParseWebUrl(url).value.0)
  {
    var rest := url[|WebUrlPrefix|..];
    var i := IndexOf(rest, '/');
    var digits, after := rest[..i], rest[i..];
    var tail := after[|WebUrlMiddle|..];
    assert ParseWebUrl(url).value == (DigitsValue(digits), tail) by {
      assert rest[i + |WebUrlMiddle|..] == tail;
    }
    assert url == WebUrlPrefix + digits + WebUrlMiddle + tail by {
      PrefixSplit(url, WebUrlPrefix);
      PrefixSplit(after, WebUrlMiddle);
      assert rest == digits + after;
      Reassemble(url, WebUrlPrefix, rest, digits, after, WebUrlMiddle, tail);
    }
    assert WebUrl(tail, DigitsValue(digits)) == WebUrlPrefix + digits + WebUrlMiddle + tail by {
      CanonicalRoundTrip(digits);
    }
  }

  lemma Reassemble(url: string, prefix: string, rest: string, digits: string, after: string, middle: string, tail: string)
    requires url == prefix + rest && rest == digits + after && after == middle + tail
    ensures url == prefix + digits + middle + tail
  {
    AppendAssoc(prefix, digits, middle + tail);
    AppendAssoc(prefix + digits, middle, tail);
  }

  lemma WebUrlInjective(a: string, b: string)
    requires WebUrl(a, 0) == WebUrl(b, 0)
    ensures a == b
  {
    ParseWebUrlRoundTrip(a, 0);
    ParseWebUrlRoundTrip(b, 0);
  }

  lemma WebUrlExample()
    ensures WebUrl("18c2f", 0) == "https://mail.google.com/mail/u/0/#all/18c2f"
  {
  }

  // ---------------------------------------------------------------------------
  // The metadata record

  /** `EmailMetadata`. */
  datatype EmailMetadata = EmailMetadata(
    id: string,
    threadId: string,
    subject: string,
    fromAddr: string,
    toAddr: string,
    date: string,
    labels: seq<string>,
    hasAttachments: bool,
    webUrl: string)

  const NoSubject: string := "No Subject"
  const Unknown: string := "Unknown"

  /** `build_email_metadata`: every field with its fallback. */
  function BuildMetadata(env: Env, m: Message, messageId: string): (r: EmailMetadata)
    ensures r.id == messageId
    ensures r.threadId == (if m.threadId.Some? then m.threadId.value else "")
    ensures r.labels == (if m.labelIds.Some? then m.labelIds.value else [])
    ensures NoHeader(m.headers, "Subject") ==> r.subject == NoSubject
    ensures !NoHeader(m.headers, "Subject") ==> LastValueIs(m.headers, "Subject", r.subject)
    ensures NoHeader(m.headers, "From") ==> r.fromAddr == Unknown
    ensures !NoHeader(m.headers, "From") ==> LastValueIs(m.headers, "From", r.fromAddr)
    ensures NoHeader(m.headers, "To") ==> r.toAddr == Unknown
    ensures !NoHeader(m.headers, "To") ==> LastValueIs(m.headers, "To", r.toAddr)
    ensures NoHeader(m.headers, "Date") || LastValueIs(m.headers, "Date", "") || LastValueIs(m.headers, "Date", UnknownDate) ==>
      r.date == UnknownDate
    ensures forall d :: LastValueIs(m.headers, "Date", d) && d != "" && d != UnknownDate ==>
      r.date == (if env.reformatDate(d).Some? then env.reformatDate(d).value else d)
    ensures r.hasAttachments == HasAttachments(m.payload)
    ensures ParseWebUrl(r.webUrl) == Some((0, messageId))
  {
    HeaderOrLastWins(m, "Subject", NoSubject);
    HeaderOrLastWins(m, "From", Unknown);
    HeaderOrLastWins(m, "To", Unknown);
    HeaderOrLastWins(m, "Date", UnknownDate);
    LastValueUnique(m.headers, "Date");
    ParseWebUrlRoundTrip(messageId, 0);
    EmailMetadata(
      messageId,
      m.threadId.GetOr(""),
      HeaderOr(m, "Subject", NoSubject),
      HeaderOr(m, "From", Unknown),
      HeaderOr(m, "To", Unknown),
      FormatEmailDate(env, HeaderOr(m, "Date", UnknownDate)),
      m.labelIds.GetOr([]),
      HasAttachments(m.payload),
      WebUrl(messageId, 0))
  }

  /** A name has at most one last occurrence, so at most one last value. */
  lemma LastValueUnique(hs: seq<Header>, name: string)
    ensures forall v, w :: LastValueIs(hs, name, v) && LastValueIs(hs, name, w) ==> v == w
  {
    forall v, w | LastValueIs(hs, name, v) && LastValueIs(hs, name, w) ensures v == w {
      var i :| IsLastOccurrence(hs, i) && hs[i].name == name && hs[i].value == v;
      var j :| IsLastOccurrence(hs, j) && hs[j].name == name && hs[j].value == w;
      assert !(i < j) && !(j < i);
    }
  }
}
