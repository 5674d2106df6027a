/** String building blocks the adapter's formatting relies on: Python's
    `str.join`, `+=` accumulation in a numbered loop, `str(int)`, `str(bool)`,
    truthiness of optional strings and the UTF-8 byte length of a text. */
module Strings {
  import opened Wrappers

  /** Python truthiness of an optional string: present and non-empty. */
  predicate Filled(o: Option<string>) {
    o.Some? && o.value != ""
  }

  /** Python's `str.startswith`. */
  predicate StartsWith(s: string, prefix: string) {
    |prefix| <= |s| && s[..|prefix|] == prefix
  }

  /** Python's `str(b)` for a bool. */
  /** A text that starts with `prefix` is `prefix` followed by the rest. */
  lemma PrefixSplit(s: string, prefix: string)
    requires StartsWith(s, prefix)
    ensures s == prefix + s[|prefix|..]
  {
    assert s == s[..|prefix|] + s[|prefix|..];
  }

  function BoolText(b: bool): string {
    if b then "True" else "False"
  }

  /** Python's `sep.join(parts)`. */
  function Join(sep: string, parts: seq<string>): string {
    if |parts| == 0 then ""
    else if |parts| == 1 then parts[0]
    else parts[0] + sep + Join(sep, parts[1..])
  }

  lemma AppendAssoc<T>(x: seq<T>, y: seq<T>, z: seq<T>)
    ensures x + (y + z) == (x + y) + z
  {
  }

  /** The concatenation of a list of strings (`''.join(parts)`). */
  function Concat(parts: seq<string>): string {
    if |parts| == 0 then "" else parts[0] + Concat(parts[1..])
  }

  lemma {:induction false} ConcatAppend(a: seq<string>, b: seq<string>)
    ensures Concat(a + b) == Concat(a) + Concat(b)
  {
    if |a| == 0 {
      assert a + b == b;
    } else {
      assert (a + b)[1..] == a[1..] + b;
      ConcatAppend(a[1..], b);
      AppendAssoc(a[0], Concat(a[1..]), Concat(b));
    }
  }

  /** Joining non-empty parts gives the empty string only for no parts. */
  lemma {:induction false} JoinEmpty(sep: string, parts: seq<string>)
    requires forall i :: 0 <= i < |parts| ==> parts[i] != ""
    ensures Join(sep, parts) == "" <==> |parts| == 0
  {
    if |parts| >= 2 {
      assert |Join(sep, parts)| >= |parts[0]| > 0;
    } else if |parts| == 1 {
      assert Join(sep, parts) == parts[0];
    }
  }

  /** Joining `[p] + rest` puts one separator between `p` and the rest's join. */
  lemma JoinCons(sep: string, p: string, rest: seq<string>)
    ensures Join(sep, [p] + rest) == if |rest| == 0 then p else p + sep + Join(sep, rest)
  {
    assert ([p] + rest)[1..] == rest;
  }

  /** The sections `f(start, xs[0])`, `f(start + 1, xs[1])`, ... as a list. */
  function Numbered<T>(f: (nat, T) -> string, start: nat, xs: seq<T>): seq<string> {
    seq(|xs|, i requires 0 <= i < |xs| => f(start + i, xs[i]))
  }

  /** Python's `for i, x in enumerate(xs, start): acc += f(i, x)`: the sections are
      numbered consecutively from `start`, in input order. */
  function Enumerate<T>(f: (nat, T) -> string, start: nat, xs: seq<T>): (r: string)
    ensures r == Concat(Numbered(f, start, xs))
    decreases |xs|
  {
    if |xs| == 0 then ""
    else
      var rest := Enumerate(f, start + 1, xs[1..]);
      assert Numbered(f, start, xs) == [f(start, xs[0])] + Numbered(f, start + 1, xs[1..]);
      f(start, xs[0]) + rest
  }

  /** The first index of `c` in `s`, or `|s|` when `c` does not occur. */
  function IndexOf(s: string, c: char): (i: nat)
    ensures i <= |s|
    ensures i < |s| ==> s[i] == c
    ensures forall j :: 0 <= j < i ==> s[j] != c
  {
    if |s| == 0 then 0 else if s[0] == c then 0 else 1 + IndexOf(s[1..], c)
  }

  /** Splits `s` at every `c`; the empty string has no fields. */
  function Split(s: string, c: char): seq<string>
    decreases |s|
  {
    if |s| == 0 then []
    else
      var i := IndexOf(s, c);
      if i == |s| then [s] else [s[..i]] + Split(s[i + 1..], c)
  }

  /** Splitting undoes joining when no part is empty or contains the separator. */
  lemma {:induction false} SplitJoin(parts: seq<string>, c: char)
    requires forall i :: 0 <= i < |parts| ==> parts[i] != "" && c !in parts[i]
    ensures Split(Join([c], parts), c) == parts
  {
    if |parts| == 1 {
      var p := parts[0];
      assert Join([c], parts) == p;
      assert IndexOf(p, c) == |p|;
    } else if |parts| >= 2 {
      var p := parts[0];
      var rest := Join([c], parts[1..]);
      var s := p + [c] + rest;
      assert Join([c], parts) == s;
      var i := IndexOf(s, c);
      assert s[|p|] == c;
      assert forall j :: 0 <= j < |p| ==> s[j] == p[j];
      assert i == |p|;
      assert s[..i] == p;
      assert s[i + 1..] == rest;
      SplitJoin(parts[1..], c);
    }
  }

  /** A text made of lines, each one ended by a newline; the shape of Python's
      triple-quoted f-string templates. */
  function Document(lines: seq<string>): string {
    if |lines| == 0 then "" else lines[0] + "\n" + Document(lines[1..])
  }

  /** A text without a line break. */
  predicate SingleLine(s: string) {
    '\n' !in s
  }

  lemma SingleLineAppend(a: string, b: string)
    requires SingleLine(a) && SingleLine(b)
    ensures SingleLine(a + b)
  {
  }

  lemma NumberSingleLine(n: nat)
    ensures SingleLine(NatToString(n))
  {
    var s := NatToString(n);
    assert forall j :: 0 <= j < |s| ==> IsDigit(s[j]);
  }

  /** Splitting a line and its newline off the front of a text. */
  lemma SplitLine(l: string, tail: string)
    requires SingleLine(l)
    ensures Split(l + "\n" + tail, '\n') == [l] + Split(tail, '\n')
  {
    var s := l + "\n" + tail;
    assert s[|l|] == '\n';
    assert forall j :: 0 <= j < |l| ==> s[j] == l[j];
    assert IndexOf(s, '\n') == |l|;
    assert s[..|l|] == l;
    assert s[|l| + 1..] == tail;
  }

  /** The first line of a text that starts with a line break-free head. */
  lemma FirstLine(head: string, rest: string)
    requires SingleLine(head)
    ensures |Split(head + "\n" + rest, '\n')| >= 1 && Split(head + "\n" + rest, '\n')[0] == head
  {
    SplitLine(head, rest);
  }

  /** Reading a document back line by line: whatever follows it, splitting at
      newlines gives its lines first, one field per line (empty lines included). */
  lemma {:induction false} SplitDocument(lines: seq<string>, rest: string)
    requires forall i :: 0 <= i < |lines| ==> '\n' !in lines[i]
    ensures |Split(Document(lines) + rest, '\n')| >= |lines|
    ensures Split(Document(lines) + rest, '\n')[..|lines|] == lines
  {
    if |lines| > 0 {
      var l, tail := lines[0], Document(lines[1..]) + rest;
      assert Document(lines) + rest == l + "\n" + tail;
      SplitLine(l, tail);
      SplitDocument(lines[1..], rest);
      var t := Split(tail, '\n');
      assert Split(Document(lines) + rest, '\n') == [l] + t;
      assert t[..|lines| - 1] == lines[1..];
      assert ([l] + t)[..|lines|] == [l] + t[..|lines| - 1];
      assert lines == [l] + lines[1..];
    }
  }


  lemma {:induction false} DocumentAppend(a: seq<string>, b: seq<string>)
    ensures Document(a + b) == Document(a) + Document(b)
  {
    if |a| == 0 {
      assert a + b == b;
    } else {
      assert (a + b)[1..] == a[1..] + b;
      DocumentAppend(a[1..], b);
      AppendAssoc(a[0] + "\n", Document(a[1..]), Document(b));
    }
  }

  /** The `k`-th line read back from a document is its `k`-th line, as long as
      no line up to it has a line break of its own. */
  lemma SplitDocumentAt(lines: seq<string>, rest: string, k: nat)
    requires k < |lines|
    requires forall i :: 0 <= i <= k ==> '\n' !in lines[i]
    ensures k < |Split(Document(lines) + rest, '\n')|
    ensures Split(Document(lines) + rest, '\n')[k] == lines[k]
  {
    var front, back := lines[..k + 1], lines[k + 1..];
    assert lines == front + back;
    DocumentAppend(front, back);
    assert Document(lines) + rest == Document(front) + (Document(back) + rest);
    SplitDocument(front, Document(back) + rest);
    assert Split(Document(front) + (Document(back) + rest), '\n')[..|front|][k] == front[k];
  }

  /** Splitting a document followed by anything gives all of its lines, then the
      lines of what follows. */
  lemma {:induction false} SplitDocumentAll(lines: seq<string>, rest: string)
    requires forall i :: 0 <= i < |lines| ==> '\n' !in lines[i]
    ensures Split(Document(lines) + rest, '\n') == lines + Split(rest, '\n')
  {
    if |lines| == 0 {
      assert Document(lines) + rest == rest;
      assert lines + Split(rest, '\n') == Split(rest, '\n');
    } else {
      var l, tail := lines[0], Document(lines[1..]) + rest;
      AppendAssoc(l + "\n", Document(lines[1..]), rest);
      SplitLine(l, tail);
      SplitDocumentAll(lines[1..], rest);
      AppendAssoc([l], lines[1..], Split(rest, '\n'));
      assert lines == [l] + lines[1..];
    }
  }

  /** The lines of several documents, one after the other. */
  ghost function Flatten(blocks: seq<seq<string>>): seq<string>
    decreases |blocks|
  {
    if |blocks| == 0 then [] else blocks[0] + Flatten(blocks[1..])
  }

  /** Documents written one after the other form the document of all their lines. */
  lemma {:induction false} ConcatDocuments(blocks: seq<seq<string>>)
    ensures Concat(seq(|blocks|, i requires 0 <= i < |blocks| => Document(blocks[i]))) == Document(Flatten(blocks))
    decreases |blocks|
  {
    if |blocks| > 0 {
      var all := seq(|blocks|, i requires 0 <= i < |blocks| => Document(blocks[i]));
      var rest := seq(|blocks| - 1, i requires 0 <= i < |blocks| - 1 => Document(blocks[1..][i]));
      assert all[1..] == rest;
      ConcatDocuments(blocks[1..]);
      DocumentAppend(blocks[0], Flatten(blocks[1..]));
    }
  }

  /** No line of the flattened documents breaks when no line of any block does. */
  lemma {:induction false} FlattenSingle(blocks: seq<seq<string>>)
    requires forall i, k :: 0 <= i < |blocks| && 0 <= k < |blocks[i]| ==> '\n' !in blocks[i][k]
    ensures forall j :: 0 <= j < |Flatten(blocks)| ==> '\n' !in Flatten(blocks)[j]
    decreases |blocks|
  {
    if |blocks| > 0 {
      assert forall i, k :: 0 <= i < |blocks[1..]| && 0 <= k < |blocks[1..][i]| ==> '\n' !in blocks[1..][i][k] by {
        forall i, k | 0 <= i < |blocks[1..]| && 0 <= k < |blocks[1..][i]| ensures '\n' !in blocks[1..][i][k] {
          assert blocks[1..][i] == blocks[i + 1];
        }
      }
      FlattenSingle(blocks[1..]);
      var head, tail := blocks[0], Flatten(blocks[1..]);
      forall j | 0 <= j < |head + tail| ensures '\n' !in (head + tail)[j] {
        if j < |head| {
          assert (head + tail)[j] == head[j];
        } else {
          assert (head + tail)[j] == tail[j - |head|];
        }
      }
    }
  }

  lemma {:induction false} FlattenLength(blocks: seq<seq<string>>, w: nat)
    requires forall j :: 0 <= j < |blocks| ==> |blocks[j]| == w
    ensures |Flatten(blocks)| == w * |blocks|
    decreases |blocks|
  {
    if |blocks| > 0 {
      assert forall j :: 0 <= j < |blocks[1..]| ==> |blocks[1..][j]| == w by {
        forall j | 0 <= j < |blocks[1..]| ensures |blocks[1..][j]| == w {
          assert blocks[1..][j] == blocks[j + 1];
        }
      }
      FlattenLength(blocks[1..], w);
      assert w * |blocks| == w + w * (|blocks| - 1);
    }
  }

  predicate IsDigit(c: char) {
    '0' <= c <= '9'
  }

  predicate AllDigits(s: string) {
    forall i :: 0 <= i < |s| ==> IsDigit(s[i])
  }

  function DigitChar(d: nat): (c: char)
    requires d < 10
    ensures IsDigit(c)
  {
    (('0' as int) + d) as char
  }

  function DigitValue(c: char): (d: nat)
    requires IsDigit(c)
    ensures d < 10
  {
    (c as int) - ('0' as int)
  }

  /** The value of a string of decimal digits (leading zeros allowed). */
  function DigitsValue(s: string): nat
    requires AllDigits(s)
  {
    if |s| == 0 then 0 else 10 * DigitsValue(s[..|s| - 1]) + DigitValue(s[|s| - 1])
  }

  /** Python's `str(n)` for a natural number: decimal digits, no leading zero. */
  function NatToString(n: nat): (r: string)
    ensures |r| >= 1 && AllDigits(r)
    ensures r[0] == '0' ==> n == 0
  {
    if n < 10 then [DigitChar(n)] else NatToString(n / 10) + [DigitChar(n % 10)]
  }

  /** A decimal text without a leading zero (other than `0` itself). */
  predicate Canonical(s: string) {
    0 < |s| && AllDigits(s) && (|s| == 1 || s[0] != '0')
  }

  /** Printing the value of a canonical decimal text gives the text back:
      `str(int(s)) == s`. */
  lemma {:induction false} CanonicalRoundTrip(s: string)
    requires Canonical(s)
    ensures NatToString(DigitsValue(s)) == s
    decreases |s|
  {
    if |s| == 1 {
      assert DigitsValue(s) == DigitValue(s[0]);
      assert NatToString(DigitValue(s[0])) == [DigitChar(DigitValue(s[0]))] == s;
    } else {
      var front := s[..|s| - 1];
      assert front[0] == s[0];
      assert forall j :: 0 <= j < |front| ==> front[j] == s[j];
      CanonicalRoundTrip(front);
      var v := DigitsValue(front);
      assert v != 0 by {
        assert NatToString(0) == [DigitChar(0)];
      }
      var n := DigitsValue(s);
      assert n == 10 * v + DigitValue(s[|s| - 1]);
      assert n / 10 == v && n % 10 == DigitValue(s[|s| - 1]);
      assert DigitChar(n % 10) == s[|s| - 1];
      assert s == front + [s[|s| - 1]];
    }
  }

  /** Reading the decimal text back gives the number: `int(str(n)) == n`. */
  lemma {:induction false} NatToStringRoundTrip(n: nat)
    ensures DigitsValue(NatToString(n)) == n
  {
    if n >= 10 {
      var s := NatToString(n);
      assert s[..|s| - 1] == NatToString(n / 10);
      NatToStringRoundTrip(n / 10);
    }
  }

  /** Distinct numbers print differently, so a printed count identifies the count. */
  lemma NatToStringInjective(m: nat, n: nat)
    requires NatToString(m) == NatToString(n)
    ensures m == n
  {
    NatToStringRoundTrip(m);
    NatToStringRoundTrip(n);
  }

  /** The number of bytes UTF-8 uses for one code point. */
  function Utf8Width(c: char): nat {
    if c as int < 0x80 then 1
    else if c as int < 0x800 then 2
    else if c as int < 0x10000 then 3
    else 4
  }

  /** Python's `len(s.encode('utf-8'))`: between one and four bytes per character. */
  function Utf8Length(s: string): (n: nat)
    ensures |s| <= n <= 4 * |s|
  {
    if |s| == 0 then 0 else Utf8Width(s[0]) + Utf8Length(s[1..])
  }

  /** A text of ASCII characters has as many bytes as characters. */
  lemma {:induction false} Utf8LengthAscii(s: string)
    requires forall i :: 0 <= i < |s| ==> s[i] as int < 0x80
    ensures Utf8Length(s) == |s|
  {
    if |s| > 0 {
      Utf8LengthAscii(s[1..]);
    }
  }
}
