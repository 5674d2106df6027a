/** The search-query builder: structured filters become a Gmail query string of
    space-separated clauses in a fixed order (`search_messages` in both
    generations; the current one takes a `read_status` word, the older one an
    `is_unread` flag). */
module Query {
  import opened Wrappers
  import opened Strings

  /** One clause of the provider's query language. */
  datatype Clause =
    | ReadClause(unread: bool)
    | LabelClause(name: string)
    | FromClause(sender: string)
    | ToClause(recipient: string)
    | SubjectClause(text: string)
    | AfterClause(after: string)
    | BeforeClause(before: string)
    | HasAttachmentClause
    | StarredClause
    | ImportantClause
    | TrashClause

  /** The position of a clause's kind in the fixed emission order. */
  function Rank(c: Clause): nat {
    match c
    case ReadClause(_) => 0
    case LabelClause(_) => 1
    case FromClause(_) => 2
    case ToClause(_) => 3
    case SubjectClause(_) => 4
    case AfterClause(_) => 5
    case BeforeClause(_) => 6
    case HasAttachmentClause => 7
    case StarredClause => 8
    case ImportantClause => 9
    case TrashClause => 10
  }

  /** The keyword before a clause's colon. */
  function Key(c: Clause): string {
    match c
    case ReadClause(_) => "is"
    case LabelClause(_) => "label"
    case FromClause(_) => "from"
    case ToClause(_) => "to"
    case SubjectClause(_) => "subject"
    case AfterClause(_) => "after"
    case BeforeClause(_) => "before"
    case HasAttachmentClause => "has"
    case StarredClause => "is"
    case ImportantClause => "is"
    case TrashClause => "in"
  }

  /** The text after a clause's colon. */
  function Value(c: Clause): string {
    match c
    case ReadClause(unread) => if unread then "unread" else "read"
    case LabelClause(l) => l
    case FromClause(a) => a
    case ToClause(a) => a
    case SubjectClause(t) => t
    case AfterClause(d) => d
    case BeforeClause(d) => d
    case HasAttachmentClause => "attachment"
    case StarredClause => "starred"
    case ImportantClause => "important"
    case TrashClause => "trash"
  }

  /** The text of a clause. */
  function Render(c: Clause): string {
    match c
    case ReadClause(unread) => if unread then "is:unread" else "is:read"
    case LabelClause(l) => "label:" + l
    case FromClause(a) => "from:" + a
    case ToClause(a) => "to:" + a
    case SubjectClause(t) => "subject:" + t
    case AfterClause(d) => "after:" + d
    case BeforeClause(d) => "before:" + d
    case HasAttachmentClause => "has:attachment"
    case StarredClause => "is:starred"
    case ImportantClause => "is:important"
    case TrashClause => "in:trash"
  }

  /** Every clause is its keyword, a colon and its value. */
  lemma RenderKeyValue(c: Clause)
    ensures Render(c) == Key(c) + ":" + Value(c)
  {
    FlagTexts();
  }

  /** The texts of the clauses without a value of their own. */
  lemma FlagTexts()
    ensures "is:unread" == "is" + ":" + "unread" && "is:read" == "is" + ":" + "read"
    ensures "has:attachment" == "has" + ":" + "attachment"
    ensures "is:starred" == "is" + ":" + "starred" && "is:important" == "is" + ":" + "important"
    ensures "in:trash" == "in" + ":" + "trash"
  {
  }


  /** The structured filters other than read status; every field is optional as
      in the Python keyword arguments. */
  datatype Filter = Filter(
    labels: Option<seq<string>>,
    fromEmail: Option<string>,
    toEmail: Option<string>,
    subject: Option<string>,
    after: Option<string>,
    before: Option<string>,
    hasAttachment: Option<bool>,
    isStarred: Option<bool>,
    isImportant: Option<bool>,
    inTrash: Option<bool>)

  /** No filter at all. */
  const NoFilter := Filter(None, None, None, None, None, None, None, None, None, None)

  /** Python's `flag is not None and flag`. */
  predicate IsSet(flag: Option<bool>) {
    flag == Some(true)
  }

  function ReadStatusClauses(readStatus: Option<string>): seq<Clause> {
    if readStatus == Some("read") then [ReadClause(false)]
    else if readStatus == Some("unread") then [ReadClause(true)]
    else []
  }

  function LabelClauses(labels: Option<seq<string>>): seq<Clause> {
    match labels
    case None => []
    case Some(ls) => seq(|ls|, i requires 0 <= i < |ls| => LabelClause(ls[i]))
  }

  /** The clauses of kind `k` (1 labels, 2 from, 3 to, 4 subject, 5 after,
      6 before, 7 has:attachment, 8 is:starred, 9 is:important, 10 in:trash)
      that a filter contributes. */
  function Segment(f: Filter, k: nat): seq<Clause> {
    if k == 1 then LabelClauses(f.labels)
    else if k == 2 then (if Filled(f.fromEmail) then [FromClause(f.fromEmail.value)] else [])
    else if k == 3 then (if Filled(f.toEmail) then [ToClause(f.toEmail.value)] else [])
    else if k == 4 then (if Filled(f.subject) then [SubjectClause(f.subject.value)] else [])
    else if k == 5 then (if Filled(f.after) then [AfterClause(f.after.value)] else [])
    else if k == 6 then (if Filled(f.before) then [BeforeClause(f.before.value)] else [])
    else if k == 7 then (if IsSet(f.hasAttachment) then [HasAttachmentClause] else [])
    else if k == 8 then (if IsSet(f.isStarred) then [StarredClause] else [])
    else if k == 9 then (if IsSet(f.isImportant) then [ImportantClause] else [])
    else if k == 10 then (if IsSet(f.inTrash) then [TrashClause] else [])
    else []
  }

  /** The groups `g(k)`, `g(k + 1)`, ..., `g(10)`, one after the other. */
  function Chain(g: nat -> seq<Clause>, k: nat): seq<Clause>
    decreases 11 - k
  {
    if 10 < k then [] else g(k) + Chain(g, k + 1)
  }

  /** A filter's clause groups, by kind. */
  function Groups(f: Filter): nat -> seq<Clause> {
    (k: nat) => Segment(f, k)
  }

  /** The clauses both generations emit after the read-status clause. */
  function FilterClauses(f: Filter): seq<Clause> {
    Chain(Groups(f), 1)
  }

  /** The clauses of the current builder, in emission order. */
  function Clauses(readStatus: Option<string>, f: Filter): seq<Clause> {
    ReadStatusClauses(readStatus) + FilterClauses(f)
  }

  function Parts(cs: seq<Clause>): seq<string> {
    seq(|cs|, i requires 0 <= i < |cs| => Render(cs[i]))
  }

  /** The current builder (`src` generation): the clauses joined by single spaces. */
  function BuildQuery(readStatus: Option<string>, f: Filter): string {
    Join(" ", Parts(Clauses(readStatus, f)))
  }

  /** The older builder's parts: `is_unread` contributes `is:unread` when true and an
      empty part when false. */
  function LegacyParts(isUnread: Option<bool>, f: Filter): seq<string> {
    (match isUnread
     case None => []
     case Some(u) => [if u then "is:unread" else ""])
    + Parts(FilterClauses(f))
  }

  /** The older builder (`mcp_gmail` generation). */
  function BuildLegacyQuery(isUnread: Option<bool>, f: Filter): string {
    Join(" ", LegacyParts(isUnread, f))
  }

  // ---------------------------------------------------------------------------
  // Clause order and clause selection

  ghost predicate Sorted(cs: seq<Clause>) {
    forall i, j :: 0 <= i < j < |cs| ==> Rank(cs[i]) <= Rank(cs[j])
  }

  /** The clauses of one kind, in order. */
  function Select(cs: seq<Clause>, k: nat): seq<Clause> {
    if |cs| == 0 then []
    else (if Rank(cs[0]) == k then [cs[0]] else []) + Select(cs[1..], k)
  }

  /** No clause of `a` ranks after a clause of `b`. */
  ghost predicate RanksBelow(a: seq<Clause>, b: seq<Clause>) {
    forall i, j :: 0 <= i < |a| && 0 <= j < |b| ==> Rank(a[i]) <= Rank(b[j])
  }

  lemma SortedAppend(a: seq<Clause>, b: seq<Clause>)
    requires Sorted(a) && Sorted(b) && RanksBelow(a, b)
    ensures Sorted(a + b)
  {
    forall i, j | 0 <= i < j < |a + b| ensures Rank((a + b)[i]) <= Rank((a + b)[j]) {
      if i >= |a| {
        assert (a + b)[i] == b[i - |a|] && (a + b)[j] == b[j - |a|];
      } else if j >= |a| {
        assert (a + b)[j] == b[j - |a|];
      }
    }
  }

  lemma {:induction false} SelectAppend(a: seq<Clause>, b: seq<Clause>, k: nat)
    ensures Select(a + b, k) == Select(a, k) + Select(b, k)
  {
    if |a| == 0 {
      assert a + b == b;
    } else {
      assert (a + b)[1..] == a[1..] + b;
      SelectAppend(a[1..], b, k);
      AppendAssoc(if Rank(a[0]) == k then [a[0]] else [], Select(a[1..], k), Select(b, k));
    }
  }

  lemma {:induction false} SelectUniform(seg: seq<Clause>, j: nat, k: nat)
    requires forall i :: 0 <= i < |seg| ==> Rank(seg[i]) == j
    ensures Select(seg, k) == if j == k then seg else []
  {
    if |seg| > 0 {
      SelectUniform(seg[1..], j, k);
    }
  }

  lemma SegmentRank(f: Filter, k: nat)
    ensures forall i :: 0 <= i < |Segment(f, k)| ==> Rank(Segment(f, k)[i]) == k
  {
  }

  /** Group `k` holds clauses of kind `k` only. */
  ghost predicate Ranked(g: nat -> seq<Clause>) {
    forall k: nat, i :: 0 <= i < |g(k)| ==> Rank(g(k)[i]) == k
  }

  lemma GroupsRanked(f: Filter)
    ensures Ranked(Groups(f))
  {
    forall k: nat, i | 0 <= i < |Groups(f)(k)| ensures Rank(Groups(f)(k)[i]) == k {
      SegmentRank(f, k);
    }
  }

  /** The groups from kind `k` on come out in order and hold kinds `k` to 10 only. */
  lemma {:induction false} ChainSorted(g: nat -> seq<Clause>, k: nat)
    requires Ranked(g)
    ensures Sorted(Chain(g, k))
    ensures forall i :: 0 <= i < |Chain(g, k)| ==> k <= Rank(Chain(g, k)[i]) <= 10
    decreases 11 - k
  {
    if k <= 10 {
      var a, b := g(k), Chain(g, k + 1);
      ChainSorted(g, k + 1);
      SortedAppend(a, b);
      forall i | 0 <= i < |a + b| ensures k <= Rank((a + b)[i]) <= 10 {
        if i >= |a| {
          assert (a + b)[i] == b[i - |a|];
        }
      }
    }
  }

  /** Selecting kind `j` from the groups from kind `k` on gives exactly group `j`. */
  lemma {:induction false} SelectChain(g: nat -> seq<Clause>, k: nat, j: nat)
    requires Ranked(g)
    ensures Select(Chain(g, k), j) == if k <= j <= 10 then g(j) else []
    decreases 11 - k
  {
    if k <= 10 {
      SelectAppend(g(k), Chain(g, k + 1), j);
      SelectUniform(g(k), k, j);
      SelectChain(g, k + 1, j);
    }
  }

  lemma {:induction false} ChainMember(g: nat -> seq<Clause>, k: nat, c: Clause)
    requires c in Chain(g, k)
    ensures exists j :: k <= j <= 10 && c in g(j)
    decreases 11 - k
  {
    if c !in g(k) {
      ChainMember(g, k + 1, c);
    }
  }

  lemma {:induction false} ChainEmpty(g: nat -> seq<Clause>, k: nat)
    ensures Chain(g, k) == [] <==> forall j :: k <= j <= 10 ==> g(j) == []
    decreases 11 - k
  {
    if k <= 10 {
      ChainEmpty(g, k + 1);
    }
  }

  /** The clauses come out in the fixed order read-status, labels, from, to,
      subject, after, before, has:attachment, is:starred, is:important, in:trash. */
  lemma ClausesSorted(readStatus: Option<string>, f: Filter)
    ensures Sorted(Clauses(readStatus, f))
  {
    GroupsRanked(f);
    ChainSorted(Groups(f), 1);
    SortedAppend(ReadStatusClauses(readStatus), FilterClauses(f));
  }

  lemma SelectKind(readStatus: Option<string>, f: Filter, k: nat)
    ensures Select(Clauses(readStatus, f), k) == if k == 0 then ReadStatusClauses(readStatus) else Segment(f, k)
  {
    GroupsRanked(f);
    SelectAppend(ReadStatusClauses(readStatus), FilterClauses(f), k);
    SelectUniform(ReadStatusClauses(readStatus), 0, k);
    SelectChain(Groups(f), 1, k);
  }

  /** What each filter contributes, kind by kind: one clause per label in input
      order (`LabelClauses`), one clause for each non-empty string filter and each flag that is
      true, and nothing otherwise. */
  lemma ClausesByKind(readStatus: Option<string>, f: Filter)
    ensures var cs := Clauses(readStatus, f);
      && Select(cs, 0) == (if readStatus == Some("read") then [ReadClause(false)]
                           else if readStatus == Some("unread") then [ReadClause(true)] else [])
      && Select(cs, 1) == LabelClauses(f.labels)
      && Select(cs, 2) == (if Filled(f.fromEmail) then [FromClause(f.fromEmail.value)] else [])
      && Select(cs, 3) == (if Filled(f.toEmail) then [ToClause(f.toEmail.value)] else [])
      && Select(cs, 4) == (if Filled(f.subject) then [SubjectClause(f.subject.value)] else [])
      && Select(cs, 5) == (if Filled(f.after) then [AfterClause(f.after.value)] else [])
      && Select(cs, 6) == (if Filled(f.before) then [BeforeClause(f.before.value)] else [])
      && Select(cs, 7) == (if IsSet(f.hasAttachment) then [HasAttachmentClause] else [])
      && Select(cs, 8) == (if IsSet(f.isStarred) then [StarredClause] else [])
      && Select(cs, 9) == (if IsSet(f.isImportant) then [ImportantClause] else [])
      && Select(cs, 10) == (if IsSet(f.inTrash) then [TrashClause] else [])
  {
    var cs := Clauses(readStatus, f);
    assert Select(cs, 0) == ReadStatusClauses(readStatus) by { SelectKind(readStatus, f, 0); }
    assert Select(cs, 1) == LabelClauses(f.labels) by { SelectKind(readStatus, f, 1); }
    assert Select(cs, 2) == Segment(f, 2) by { SelectKind(readStatus, f, 2); }
    assert Select(cs, 3) == Segment(f, 3) by { SelectKind(readStatus, f, 3); }
    assert Select(cs, 4) == Segment(f, 4) by { SelectKind(readStatus, f, 4); }
    assert Select(cs, 5) == Segment(f, 5) by { SelectKind(readStatus, f, 5); }
    assert Select(cs, 6) == Segment(f, 6) by { SelectKind(readStatus, f, 6); }
    assert Select(cs, 7) == Segment(f, 7) by { SelectKind(readStatus, f, 7); }
    assert Select(cs, 8) == Segment(f, 8) by { SelectKind(readStatus, f, 8); }
    assert Select(cs, 9) == Segment(f, 9) by { SelectKind(readStatus, f, 9); }
    assert Select(cs, 10) == Segment(f, 10) by { SelectKind(readStatus, f, 10); }
  }


  /** Every filter clause comes from a filter value: a listed label, or a
      non-empty string filter, or a flag that is true; never a read-status clause. */
  lemma FilterClauseOrigin(f: Filter, c: Clause)
    requires c in FilterClauses(f)
    ensures !c.ReadClause?
    ensures c.LabelClause? ==> f.labels.Some? && c.name in f.labels.value
    ensures c.FromClause? ==> f.fromEmail == Some(c.sender)
    ensures c.ToClause? ==> f.toEmail == Some(c.recipient)
    ensures c.SubjectClause? ==> f.subject == Some(c.text)
    ensures c.AfterClause? ==> f.after == Some(c.after)
    ensures c.BeforeClause? ==> f.before == Some(c.before)
  {
    ChainMember(Groups(f), 1, c);
    var k :| 1 <= k <= 10 && c in Groups(f)(k);
    if c.LabelClause? {
      SegmentRank(f, k);
      var i :| 0 <= i < |Segment(f, k)| && Segment(f, k)[i] == c;
      assert k == 1;
      assert c.name == f.labels.value[i];
    }
  }

  // ---------------------------------------------------------------------------
  // The query string

  /** Some filter is active. */
  predicate AnyActive(readStatus: Option<string>, f: Filter) {
    || readStatus == Some("read") || readStatus == Some("unread")
    || (f.labels.Some? && |f.labels.value| > 0)
    || Filled(f.fromEmail) || Filled(f.toEmail) || Filled(f.subject)
    || Filled(f.after) || Filled(f.before)
    || IsSet(f.hasAttachment) || IsSet(f.isStarred) || IsSet(f.isImportant) || IsSet(f.inTrash)
  }

  lemma PartsAppend(a: seq<Clause>, b: seq<Clause>)
    ensures Parts(a + b) == Parts(a) + Parts(b)
  {
  }

  lemma RenderNonEmpty(c: Clause)
    ensures Render(c) != "" && Render(c)[0] != '-'
  {
  }

  /** No clause is empty, so the query is empty exactly when no filter is active
      ("match everything"). */
  lemma BuildQueryEmpty(readStatus: Option<string>, f: Filter)
    ensures BuildQuery(readStatus, f) == "" <==> !AnyActive(readStatus, f)
  {
    var cs := Clauses(readStatus, f);
    JoinEmpty(" ", Parts(cs));
    ChainEmpty(Groups(f), 1);
  }

  /** Every clause the builder emits starts with its keyword, never with `-`: no
      negative clause is produced. */
  lemma NoNegativeClauses(readStatus: Option<string>, f: Filter)
    ensures forall i :: 0 <= i < |Parts(Clauses(readStatus, f))| ==>
      Parts(Clauses(readStatus, f))[i] != "" && Parts(Clauses(readStatus, f))[i][0] != '-'
  {
    var cs := Clauses(readStatus, f);
    forall i | 0 <= i < |Parts(cs)| ensures Parts(cs)[i] != "" && Parts(cs)[i][0] != '-' {
      RenderNonEmpty(cs[i]);
    }
  }

  /** `from_email='a@b.com', read_status='unread'` gives `is:unread from:a@b.com`. */
  lemma BuildQueryExample()
    ensures BuildQuery(Some("unread"), NoFilter.(fromEmail := Some("a@b.com"))) == "is:unread from:a@b.com"
  {
    var f := NoFilter.(fromEmail := Some("a@b.com"));
    ExampleParts(f, "a@b.com");
    JoinPair(" ", "is:unread", "from:a@b.com");
    ExampleText();
  }

  lemma ExampleParts(f: Filter, a: string)
    requires f == NoFilter.(fromEmail := Some(a)) && a != ""
    ensures Parts(Clauses(Some("unread"), f)) == ["is:unread", "from:" + a]
  {
    OnlyFromClause(f, a);
    assert Clauses(Some("unread"), f) == [ReadClause(true), FromClause(a)];
  }

  lemma ExampleText()
    ensures "is:unread" + " " + ("from:" + "a@b.com") == "is:unread from:a@b.com"
  {
  }

  lemma JoinPair(sep: string, a: string, b: string)
    ensures Join(sep, [a, b]) == a + sep + b
  {
    JoinCons(sep, a, [b]);
  }



  /** A filter with only a sender gives exactly that sender's clause. */
  lemma OnlyFromClause(f: Filter, a: string)
    requires f == NoFilter.(fromEmail := Some(a)) && a != ""
    ensures FilterClauses(f) == [FromClause(a)]
  {
    var g := Groups(f);
    ChainEmpty(g, 3);
    assert g(1) == [] && g(2) == [FromClause(a)];
  }


  // ---------------------------------------------------------------------------
  // Reading a query back

  /** The clause a query term spells, if any: the keyword is the text before
      the first colon. */
  function ParseClause(s: string): Option<Clause> {
    var i := IndexOf(s, ':');
    if i == |s| then None else ParseTerm(s[..i], s[i + 1..])
  }

  function ParseTerm(key: string, v: string): Option<Clause> {
    if key == "is" then
      if v == "read" then Some(ReadClause(false))
      else if v == "unread" then Some(ReadClause(true))
      else if v == "starred" then Some(StarredClause)
      else if v == "important" then Some(ImportantClause)
      else None
    else if key == "has" then (if v == "attachment" then Some(HasAttachmentClause) else None)
    else if key == "in" then (if v == "trash" then Some(TrashClause) else None)
    else if key == "label" then Some(LabelClause(v))
    else if key == "from" then Some(FromClause(v))
    else if key == "to" then Some(ToClause(v))
    else if key == "subject" then Some(SubjectClause(v))
    else if key == "after" then Some(AfterClause(v))
    else if key == "before" then Some(BeforeClause(v))
    else None
  }

  /** The clauses a list of query terms spells, if every term is a clause. */
  function ParseClauses(terms: seq<string>): Option<seq<Clause>> {
    if |terms| == 0 then Some([])
    else
      match (ParseClause(terms[0]), ParseClauses(terms[1..]))
      case (Some(c), Some(cs)) => Some([c] + cs)
      case _ => None
  }

  /** The clauses a query string spells. */
  function ParseQuery(q: string): Option<seq<Clause>> {
    ParseClauses(Split(q, ' '))
  }

  /** The first colon of `key:v` is the one after the keyword. */
  lemma SplitKey(key: string, v: string)
    requires ':' !in key
    ensures var s := key + ":" + v; IndexOf(s, ':') == |key| && s[..|key|] == key && s[|key| + 1..] == v
  {
    var s := key + ":" + v;
    assert s[|key|] == ':';
    assert forall j :: 0 <= j < |key| ==> s[j] == key[j];
  }

  lemma ParseKeyed(key: string, v: string)
    requires ':' !in key
    ensures ParseClause(key + ":" + v) == ParseTerm(key, v)
  {
    SplitKey(key, v);
  }

  lemma ParseTermInverse(c: Clause)
    ensures ParseTerm(Key(c), Value(c)) == Some(c)
  {
  }

  /** A term written with one keyword is never read as another. */
  lemma ParseRender(c: Clause)
    ensures ParseClause(Render(c)) == Some(c)
  {
    RenderKeyValue(c);
    ParseKeyed(Key(c), Value(c));
    ParseTermInverse(c);
  }

  lemma {:induction false} ParseParts(cs: seq<Clause>)
    ensures ParseClauses(Parts(cs)) == Some(cs)
  {
    if |cs| > 0 {
      assert Parts(cs)[1..] == Parts(cs[1..]);
      ParseRender(cs[0]);
      ParseParts(cs[1..]);
      assert [cs[0]] + cs[1..] == cs;
    }
  }

  /** No filter value contains a space. */
  predicate SpaceFree(f: Filter) {
    && (f.labels.Some? ==> forall i :: 0 <= i < |f.labels.value| ==> ' ' !in f.labels.value[i])
    && (f.fromEmail.Some? ==> ' ' !in f.fromEmail.value)
    && (f.toEmail.Some? ==> ' ' !in f.toEmail.value)
    && (f.subject.Some? ==> ' ' !in f.subject.value)
    && (f.after.Some? ==> ' ' !in f.after.value)
    && (f.before.Some? ==> ' ' !in f.before.value)
  }

  lemma RenderSpaceFree(c: Clause)
    requires c.LabelClause? ==> ' ' !in c.name
    requires c.FromClause? ==> ' ' !in c.sender
    requires c.ToClause? ==> ' ' !in c.recipient
    requires c.SubjectClause? ==> ' ' !in c.text
    requires c.AfterClause? ==> ' ' !in c.after
    requires c.BeforeClause? ==> ' ' !in c.before
    ensures ' ' !in Render(c)
  {
    RenderKeyValue(c);
    assert ' ' !in Key(c) && ' ' !in Value(c);
  }

  lemma ClausesSpaceFree(readStatus: Option<string>, f: Filter)
    requires SpaceFree(f)
    ensures forall i :: 0 <= i < |Parts(Clauses(readStatus, f))| ==>
      ' ' !in Parts(Clauses(readStatus, f))[i]
  {
    var cs := Clauses(readStatus, f);
    forall i | 0 <= i < |cs| ensures ' ' !in Render(cs[i]) {
      var c := cs[i];
      if i >= |ReadStatusClauses(readStatus)| {
        assert c in FilterClauses(f);
        FilterClauseOrigin(f, c);
        if c.LabelClause? {
          var j :| 0 <= j < |f.labels.value| && f.labels.value[j] == c.name;
        }
      }
      RenderSpaceFree(c);
    }
  }

  /** When no filter value contains a space, the query string determines the
      clauses: splitting it at spaces and reading each term gives them back. */
  lemma BuildQueryRoundTrip(readStatus: Option<string>, f: Filter)
    requires SpaceFree(f)
    ensures ParseQuery(BuildQuery(readStatus, f)) == Some(Clauses(readStatus, f))
  {
    var cs := Clauses(readStatus, f);
    ClausesSpaceFree(readStatus, f);
    forall i | 0 <= i < |Parts(cs)| ensures Parts(cs)[i] != "" {
      RenderNonEmpty(cs[i]);
    }
    SplitJoin(Parts(cs), ' ');
    ParseParts(cs);
  }

  // ---------------------------------------------------------------------------
  // The older builder against the current one

  /** `is_unread=True` behaves like `read_status='unread'`, and an absent flag like
      an absent read status; the remaining clauses are the same in both. */
  lemma LegacyAgreesWithCurrent(f: Filter)
    ensures BuildLegacyQuery(Some(true), f) == BuildQuery(Some("unread"), f)
    ensures BuildLegacyQuery(None, f) == BuildQuery(None, f)
  {
    PartsAppend(ReadStatusClauses(Some("unread")), FilterClauses(f));
    PartsAppend(ReadStatusClauses(None), FilterClauses(f));
    assert Parts([ReadClause(true)]) == ["is:unread"];
  }

  /** `is_unread=False` adds an empty part, so whenever any other filter is active the
      query starts with a stray space. */
  lemma LegacyFalseQuirk(f: Filter)
    ensures BuildLegacyQuery(Some(false), f) ==
      (if BuildQuery(None, f) == "" then "" else " " + BuildQuery(None, f))
  {
    var ps := Parts(FilterClauses(f));
    assert Parts(Clauses(None, f)) == ps;
    JoinCons(" ", "", ps);
    forall i | 0 <= i < |ps| ensures ps[i] != "" {
      RenderNonEmpty(FilterClauses(f)[i]);
    }
    JoinEmpty(" ", ps);
  }

  /** Only `from_email='a'` with the default `is_unread=False` gives ` from:a`. */
  lemma LegacyFalseExample()
    ensures BuildLegacyQuery(Some(false), NoFilter.(fromEmail := Some("a"))) == " from:a"
  {
    var f := NoFilter.(fromEmail := Some("a"));
    var ps := ["", "from:a"];
    assert LegacyParts(Some(false), f) == ps by {
      OnlyFromClause(f, "a");
      assert Render(FromClause("a")) == "from:a";
      assert Parts([FromClause("a")]) == ["from:a"];
    }
    JoinCons(" ", "", ["from:a"]);
  }


  /** The older builder can never ask for read messages. */
  lemma LegacyNeverRead(isUnread: Option<bool>, f: Filter)
    ensures forall i :: 0 <= i < |LegacyParts(isUnread, f)| ==> LegacyParts(isUnread, f)[i] != "is:read"
  {
    var head: seq<string> := match isUnread
      case None => []
      case Some(u) => [if u then "is:unread" else ""];
    var ps := Parts(FilterClauses(f));
    assert LegacyParts(isUnread, f) == head + ps;
    FilterPartsNotRead(f);
    forall i | 0 <= i < |head + ps| ensures (head + ps)[i] != "is:read" {
      if i >= |head| {
        assert (head + ps)[i] == ps[i - |head|];
      }
    }
  }

  /** No filter clause is `is:read`. */
  lemma FilterPartsNotRead(f: Filter)
    ensures forall j :: 0 <= j < |Parts(FilterClauses(f))| ==> Parts(FilterClauses(f))[j] != "is:read"
  {
    var cs := FilterClauses(f);
    forall j | 0 <= j < |cs| ensures Render(cs[j]) != "is:read" {
      FilterClauseNotRead(f, cs[j]);
      RenderIsRead(cs[j]);
    }
  }


  lemma FilterClauseNotRead(f: Filter, c: Clause)
    requires c in FilterClauses(f)
    ensures !c.ReadClause?
  {
    FilterClauseOrigin(f, c);
  }

  lemma RenderIsRead(c: Clause)
    ensures Render(c) == "is:read" ==> c == ReadClause(false)
  {
    ParseRender(c);
  }

}
