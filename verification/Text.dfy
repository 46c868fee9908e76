/** The string operations the daemon uses, with the laws the codecs need. */
module Text {
  import opened Prelude

  /** White space as the language's TrimSpace and Fields understand it. */
  predicate IsSpace(c: char) {
    || c == ' ' || '\U{0009}' <= c <= '\U{000d}' || c == '\U{0085}' || c == '\U{00a0}' || c == '\U{1680}'
    || '\U{2000}' <= c <= '\U{200a}' || c == '\U{2028}' || c == '\U{2029}' || c == '\U{202f}' || c == '\U{205f}'
    || c == '\U{3000}'
  }

  function TrimLeft(s: string): string {
    if s != [] && IsSpace(s[0]) then TrimLeft(s[1..]) else s
  }

  function TrimRight(s: string): string {
    if s != [] && IsSpace(s[|s| - 1]) then TrimRight(s[..|s| - 1]) else s
  }

  function TrimSpace(s: string): string {
    TrimRight(TrimLeft(s))
  }

  predicate HasPrefix(s: string, p: string) {
    |p| <= |s| && s[..|p|] == p
  }

  predicate Alnum(c: char) {
    'a' <= c <= 'z' || '0' <= c <= '9'
  }

  /** The names of workloads and volumes: a DNS-1123 label of at most 63 characters. */
  predicate DnsLabel(name: string) {
    && 0 < |name| <= 63
    && Alnum(name[0]) && Alnum(name[|name| - 1])
    && forall i :: 0 <= i < |name| ==> Alnum(name[i]) || name[i] == '-'
  }

  // ------------------------------------------------------------------
  // Split and Join
  // ------------------------------------------------------------------

  /** strings.Split on a one-character separator: always at least one piece. */
  function Split(s: string, sep: char): (r: seq<string>)
    ensures |r| >= 1
  {
    if s == [] then [""]
    else
      var rest := Split(s[1..], sep);
      if s[0] == sep then [""] + rest else [[s[0]] + rest[0]] + rest[1..]
  }

  function Join(parts: seq<string>, sep: char): string {
    if parts == [] then "" else if |parts| == 1 then parts[0] else parts[0] + [sep] + Join(parts[1..], sep)
  }

  predicate Free(parts: seq<string>, sep: char) {
    forall i :: 0 <= i < |parts| ==> sep !in parts[i]
  }

  lemma {:induction false} SplitFree(s: string, sep: char)
    ensures Free(Split(s, sep), sep)
  {
    if s != [] {
      SplitFree(s[1..], sep);
    }
  }

  lemma JoinCons(head: string, rest: seq<string>, sep: char)
    requires rest != []
    ensures Join([head] + rest, sep) == head + [sep] + Join(rest, sep)
  {
    assert ([head] + rest)[1..] == rest;
  }

  lemma JoinGrow(c: char, rest: seq<string>, sep: char)
    requires rest != []
    ensures Join([[c] + rest[0]] + rest[1..], sep) == [c] + Join(rest, sep)
  {
    if |rest| > 1 {
      JoinCons([c] + rest[0], rest[1..], sep);
    } else {
      assert [[c] + rest[0]] + rest[1..] == [[c] + rest[0]];
    }
  }

  lemma {:induction false} JoinSplit(s: string, sep: char)
    ensures Join(Split(s, sep), sep) == s
  {
    if s != [] {
      var rest := Split(s[1..], sep);
      JoinSplit(s[1..], sep);
      if s[0] == sep {
        JoinCons("", rest, sep);
      } else {
        JoinGrow(s[0], rest, sep);
      }
      assert [s[0]] + s[1..] == s;
    }
  }

  /** The pieces, each followed by the separator. */
  function Before(parts: seq<string>, sep: char): string {
    if parts == [] then [] else parts[0] + [sep] + Before(parts[1..], sep)
  }

  /** The pieces, each preceded by the separator. */
  function After(parts: seq<string>, sep: char): string {
    if parts == [] then [] else [sep] + parts[0] + After(parts[1..], sep)
  }

  lemma {:induction false} JoinAfter(parts: seq<string>, sep: char)
    requires parts != []
    ensures Join(parts, sep) == parts[0] + After(parts[1..], sep)
  {
    if |parts| > 1 {
      JoinAfter(parts[1..], sep);
    }
  }

  /** A joined text, cut around one of its pieces. */
  lemma {:induction false} JoinAt(parts: seq<string>, i: nat, sep: char)
    requires i < |parts|
    ensures Join(parts, sep) == Before(parts[..i], sep) + parts[i] + After(parts[i + 1..], sep)
    decreases i
  {
    if i == 0 {
      JoinAfter(parts, sep);
    } else {
      JoinAt(parts[1..], i - 1, sep);
      assert parts[..i][1..] == parts[1..][..i - 1];
      assert parts[1..][i..] == parts[i + 1..];
      var a, b, c := Before(parts[..i][1..], sep), parts[i], After(parts[i + 1..], sep);
      assert parts[0] + [sep] + (a + b + c) == parts[0] + [sep] + a + b + c;
    }
  }

  /** A piece without the separator, then the separator, then anything. */
  lemma {:induction false} SplitHead(head: string, tail: string, sep: char)
    requires sep !in head
    ensures Split(head, sep) == [head]
    ensures Split(head + [sep] + tail, sep) == [head] + Split(tail, sep)
  {
    var s := head + [sep] + tail;
    if head == [] {
      assert s[1..] == tail;
    } else {
      SplitHead(head[1..], tail, sep);
      assert s[1..] == head[1..] + [sep] + tail;
      assert [head[0]] + head[1..] == head;
    }
  }

  lemma {:induction false} SplitJoin(parts: seq<string>, sep: char)
    requires parts != [] && Free(parts, sep)
    ensures Split(Join(parts, sep), sep) == parts
  {
    if |parts| == 1 {
      SplitHead(parts[0], "", sep);
    } else {
      SplitHead(parts[0], Join(parts[1..], sep), sep);
      SplitJoin(parts[1..], sep);
    }
  }

  // ------------------------------------------------------------------
  // Cut
  // ------------------------------------------------------------------

  /** strings.Cut around the first `c`. */
  function Cut(s: string, c: char): Option<(string, string)> {
    if s == [] then None
    else if s[0] == c then Some(("", s[1..]))
    else match Cut(s[1..], c)
      case None => None
      case Some((l, r)) => Some(([s[0]] + l, r))
  }

  lemma {:induction false} CutAt(left: string, right: string, c: char)
    requires c !in left
    ensures Cut(left + [c] + right, c) == Some((left, right))
  {
    var s := left + [c] + right;
    if left == [] {
      assert s[1..] == right;
    } else {
      CutAt(left[1..], right, c);
      assert s[1..] == left[1..] + [c] + right;
      assert [left[0]] + left[1..] == left;
    }
  }

  // ------------------------------------------------------------------
  // Fields
  // ------------------------------------------------------------------

  /** The length of the leading run of non-space characters. */
  function WordLength(s: string): (n: nat)
    ensures n <= |s|
  {
    if s == [] || IsSpace(s[0]) then 0 else 1 + WordLength(s[1..])
  }

  /** strings.Fields: the maximal runs of non-space characters. */
  function Fields(s: string): seq<string>
    decreases |s|
  {
    if s == [] then []
    else if IsSpace(s[0]) then Fields(s[1..])
    else [s[..WordLength(s)]] + Fields(s[WordLength(s)..])
  }

  /** A non-empty token without white space. */
  predicate Word(w: string) {
    w != [] && Spaceless(w)
  }

  predicate Spaceless(w: string) {
    forall i :: 0 <= i < |w| ==> !IsSpace(w[i])
  }

  lemma {:induction false} WordLengthOf(w: string, rest: string)
    requires Spaceless(w) && (rest == [] || IsSpace(rest[0]))
    ensures WordLength(w + rest) == |w|
  {
    if w == [] {
      assert w + rest == rest;
    } else {
      assert (w + rest)[1..] == w[1..] + rest;
      WordLengthOf(w[1..], rest);
    }
  }

  lemma {:induction false} FieldsJoin(ws: seq<string>)
    requires forall i :: 0 <= i < |ws| ==> Word(ws[i])
    ensures Fields(Join(ws, ' ')) == ws
    decreases |ws|
  {
    if ws != [] {
      var rest := if |ws| == 1 then "" else [' '] + Join(ws[1..], ' ');
      var s := ws[0] + rest;
      assert s == Join(ws, ' ');
      WordLengthOf(ws[0], rest);
      assert s[..|ws[0]|] == ws[0] && s[|ws[0]|..] == rest;
      FieldsJoin(ws[1..]);
      if |ws| > 1 {
        assert rest[1..] == Join(ws[1..], ' ');
        assert Fields(rest) == Fields(rest[1..]);
      }
    }
  }

  lemma {:induction false} FieldsIndented(indent: string, s: string)
    requires forall i :: 0 <= i < |indent| ==> IsSpace(indent[i])
    ensures Fields(indent + s) == Fields(s)
  {
    if indent == [] {
      assert indent + s == s;
    } else {
      assert (indent + s)[1..] == indent[1..] + s;
      FieldsIndented(indent[1..], s);
    }
  }

  // ------------------------------------------------------------------
  // Trimming
  // ------------------------------------------------------------------

  lemma {:induction false} TrimLeftIndented(indent: string, s: string)
    requires forall i :: 0 <= i < |indent| ==> IsSpace(indent[i])
    requires s == [] || !IsSpace(s[0])
    ensures TrimLeft(indent + s) == s
  {
    if indent == [] {
      assert indent + s == s;
    } else {
      assert (indent + s)[1..] == indent[1..] + s;
      TrimLeftIndented(indent[1..], s);
    }
  }

  /** Indentation goes; a body with no space at either end stays. */
  lemma TrimIndented(indent: string, s: string)
    requires forall i :: 0 <= i < |indent| ==> IsSpace(indent[i])
    requires s == [] || (!IsSpace(s[0]) && !IsSpace(s[|s| - 1]))
    ensures TrimSpace(indent + s) == s
  {
    TrimLeftIndented(indent, s);
  }

  // ------------------------------------------------------------------
  // Decimal numbers
  // ------------------------------------------------------------------

  const DIGITS := "0123456789"

  function NatText(n: nat): string {
    if n < 10 then [DIGITS[n]] else NatText(n / 10) + [DIGITS[n % 10]]
  }
}
