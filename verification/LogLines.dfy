/**
 Two byte-level log kernels over lines: the writer that prefixes each line of a VM's serial
 stream, and the backward scan that positions a log file on its last lines.
 */
module LogLines {
  import opened Prelude

  const NL: Byte := 10

  /** The index of the first newline, or the length. */
  function IndexNL(s: Bytes): (i: nat)
    ensures i <= |s| && (i < |s| ==> s[i] == NL)
    ensures forall j :: 0 <= j < i ==> s[j] != NL
  {
    IndexFrom(s, 0)
  }

  function IndexFrom(s: Bytes, k: nat): (i: nat)
    requires k <= |s|
    ensures k <= i <= |s| && (i < |s| ==> s[i] == NL)
    ensures forall j :: k <= j < i ==> s[j] != NL
    decreases |s| - k
  {
    if k == |s| || s[k] == NL then k else IndexFrom(s, k + 1)
  }

  /** The complete lines, each with its newline. */
  function Lines(s: Bytes): seq<Bytes>
    decreases |s|
  {
    var i := IndexNL(s);
    if i == |s| then [] else [s[..i + 1]] + Lines(s[i + 1..])
  }

  /** What follows the last newline. */
  function Rest(s: Bytes): Bytes
    decreases |s|
  {
    var i := IndexNL(s);
    if i == |s| then s else Rest(s[i + 1..])
  }

  /** Lines and remainder are the input, cut after its newlines. */
  lemma LinesCover(s: Bytes)
    ensures Flatten(Lines(s)) + Rest(s) == s && NL !in Rest(s)
    ensures forall k :: 0 <= k < |Lines(s)| ==> IsLine(Lines(s)[k])
  {
    LinesRejoin(s);
    LinesAreLines(s);
  }

  lemma {:induction false} LinesRejoin(s: Bytes)
    ensures Flatten(Lines(s)) + Rest(s) == s
    decreases |s|
  {
    var i := IndexNL(s);
    if i < |s| {
      LinesRejoin(s[i + 1..]);
      LinesUnfold(s);
      RejoinStep(s[..i + 1], s[i + 1..], Lines(s[i + 1..]), Rest(s[i + 1..]));
      CutRejoins(s, i + 1);
    }
  }

  lemma CutRejoins<T>(s: seq<T>, k: nat)
    requires k <= |s|
    ensures s[..k] + s[k..] == s
  {
  }

  lemma LinesUnfold(s: Bytes)
    requires IndexNL(s) < |s|
    ensures var more := s[IndexNL(s) + 1..]; Lines(s) == [s[..IndexNL(s) + 1]] + Lines(more) && Rest(s) == Rest(more)
  {
  }

  lemma RejoinStep(line: Bytes, more: Bytes, ls: seq<Bytes>, rest: Bytes)
    requires Flatten(ls) + rest == more
    ensures Flatten([line] + ls) + rest == line + more
  {
    FlattenCons(line, ls);
    Assoc(line, Flatten(ls), rest);
  }

  lemma {:induction false} LinesAreLines(s: Bytes)
    ensures NL !in Rest(s) && forall k :: 0 <= k < |Lines(s)| ==> IsLine(Lines(s)[k])
    decreases |s|
  {
    if IndexNL(s) < |s| {
      HeadIsLine(s);
      LinesAreLines(s[IndexNL(s) + 1..]);
    }
  }

  lemma HeadIsLine(s: Bytes)
    requires IndexNL(s) < |s|
    ensures IsLine(s[..IndexNL(s) + 1])
  {
    var line := s[..IndexNL(s) + 1];
    assert line[IndexNL(s)] == NL;
    assert forall j :: 0 <= j < IndexNL(s) ==> line[j] == s[j];
  }

  lemma FlattenCons(x: Bytes, xs: seq<Bytes>)
    ensures Flatten([x] + xs) == x + Flatten(xs)
  {
    assert ([x] + xs)[1..] == xs;
  }

  predicate IsLine(l: Bytes) {
    l != [] && IndexNL(l) == |l| - 1
  }

  lemma IndexConcat(x: Bytes, y: Bytes)
    requires NL in x
    ensures IndexNL(x + y) == IndexNL(x)
  {
    var i := IndexNL(x);
    assert (x + y)[i] == x[i];
    assert forall j :: 0 <= j < i ==> (x + y)[j] == x[j];
  }

  lemma Assoc<T>(a: seq<T>, b: seq<T>, c: seq<T>)
    ensures a + (b + c) == a + b + c
  {
  }

  lemma CutHead(line: Bytes, more: Bytes)
    requires IsLine(line)
    ensures Lines(line + more) == [line] + Lines(more) && Rest(line + more) == Rest(more)
  {
    IndexConcat(line, more);
    SliceConcat(line, more, |line|);
    LinesUnfold(line + more);
  }

  /** The cut is the only one: whole lines followed by an unfinished one are found again. */
  lemma {:induction false} LinesUnique(ls: seq<Bytes>, rest: Bytes)
    requires NL !in rest && forall k :: 0 <= k < |ls| ==> IsLine(ls[k])
    ensures Lines(Flatten(ls) + rest) == ls && Rest(Flatten(ls) + rest) == rest
    decreases |ls|
  {
    if ls == [] {
      assert Flatten(ls) + rest == rest;
    } else {
      LinesUnique(ls[1..], rest);
      CutHead(ls[0], Flatten(ls[1..]) + rest);
      Assoc(ls[0], Flatten(ls[1..]), rest);
    }
  }

  /** Feeding `x` and then `y` cuts the same lines as feeding them together. */
  lemma LinesConcat(x: Bytes, y: Bytes)
    ensures Lines(x + y) == Lines(x) + Lines(Rest(x) + y) && Rest(x + y) == Rest(Rest(x) + y)
  {
    LinesCover(x);
    LinesCover(Rest(x) + y);
    ConcatOfCuts(Lines(x), Rest(x), y, Lines(Rest(x) + y), Rest(Rest(x) + y));
  }

  lemma ConcatOfCuts(ls: seq<Bytes>, rest: Bytes, y: Bytes, more: seq<Bytes>, last: Bytes)
    requires Flatten(more) + last == rest + y && NL !in last
    requires forall k :: 0 <= k < |ls| ==> IsLine(ls[k])
    requires forall k :: 0 <= k < |more| ==> IsLine(more[k])
    ensures Lines(Flatten(ls) + rest + y) == ls + more && Rest(Flatten(ls) + rest + y) == last
  {
    LinesUnique(ls + more, last);
    FlattenAppend(ls, more);
    Assoc(Flatten(ls), Flatten(more), last);
    Assoc(Flatten(ls), rest, y);
  }

  lemma SliceConcat(x: Bytes, y: Bytes, k: nat)
    requires k <= |x|
    ensures (x + y)[..k] == x[..k] && (x + y)[k..] == x[k..] + y
  {
  }

  // ------------------------------------------------------------------
  // The prefixing writer
  // ------------------------------------------------------------------

  function Render(prefix: Bytes, ls: seq<Bytes>): Bytes {
    if ls == [] then [] else prefix + ls[0] + Render(prefix, ls[1..])
  }

  lemma {:induction false} RenderAppend(prefix: Bytes, a: seq<Bytes>, b: seq<Bytes>)
    ensures Render(prefix, a + b) == Render(prefix, a) + Render(prefix, b)
  {
    if a == [] {
      assert a + b == b;
    } else {
      assert (a + b)[1..] == a[1..] + b;
      RenderAppend(prefix, a[1..], b);
      var p := prefix + a[0];
      assert p + (Render(prefix, a[1..]) + Render(prefix, b)) == p + Render(prefix, a[1..]) + Render(prefix, b);
    }
  }

  class PrefixedWriter {
    const prefix: Bytes
    /** Everything passed on to the underlying writer. */
    var out: Bytes
    var tail: Bytes

    constructor (prefix: Bytes)
      ensures this.prefix == prefix && out == [] && tail == []
    {
      this.prefix, out, tail := prefix, [], [];
    }

    method Write(b: Bytes) returns (n: nat)
      modifies this
      ensures n == |b|
      ensures out == old(out) + Render(prefix, Lines(old(tail) + b))
      ensures tail == Rest(old(tail) + b)
    {
      n := |b|;
      var buf := tail + b;
      ghost var all := buf;
      while true
        invariant out + Render(prefix, Lines(buf)) == old(out) + Render(prefix, Lines(all))
        invariant Rest(all) == Rest(buf) && tail == old(tail)
        decreases |buf|
      {
        var idx := IndexNL(buf);
        if idx == |buf| {
          break;
        }
        var line := buf[..idx + 1];
        buf := buf[idx + 1..];
        Assoc(out, prefix + line, Render(prefix, Lines(buf)));
        Assoc(out, prefix, line);
        out := out + prefix;
        out := out + line;
      }
      assert Render(prefix, Lines(buf)) == [];
      tail := buf;
    }
  }

  /** Output and tail after writing each chunk in turn to a fresh writer. */
  function WriteAll(prefix: Bytes, chunks: seq<Bytes>): (Bytes, Bytes) {
    if chunks == [] then ([], [])
    else
      var n := |chunks| - 1;
      var (out, tail) := WriteAll(prefix, chunks[..n]);
      (out + Render(prefix, Lines(tail + chunks[n])), Rest(tail + chunks[n]))
  }

  /** The object, written chunk by chunk. */
  method WriteChunks(prefix: Bytes, chunks: seq<Bytes>) returns (w: PrefixedWriter)
    ensures fresh(w) && w.prefix == prefix && (w.out, w.tail) == WriteAll(prefix, chunks)
  {
    w := new PrefixedWriter(prefix);
    for i := 0 to |chunks|
      invariant fresh(w) && w.prefix == prefix && (w.out, w.tail) == WriteAll(prefix, chunks[..i])
    {
      assert chunks[..i + 1][..i] == chunks[..i];
      var _ := w.Write(chunks[i]);
    }
    assert chunks[..|chunks|] == chunks;
  }

  /** Only the concatenated input matters, not how it was cut into writes. */
  lemma {:induction false} ChunkingIsInvisible(prefix: Bytes, chunks: seq<Bytes>)
    ensures WriteAll(prefix, chunks) == (Render(prefix, Lines(Flatten(chunks))), Rest(Flatten(chunks)))
    decreases |chunks|
  {
    if chunks != [] {
      var n := |chunks| - 1;
      ChunkingIsInvisible(prefix, chunks[..n]);
      assert chunks == chunks[..n] + [chunks[n]];
      FlattenAppend(chunks[..n], [chunks[n]]);
      assert Flatten([chunks[n]]) == chunks[n];
      var x, y := Flatten(chunks[..n]), chunks[n];
      LinesConcat(x, y);
      RenderAppend(prefix, Lines(x), Lines(Rest(x) + y));
    }
  }

  /** Reads the output back: skip a prefix's length, keep up to the newline, repeat. */
  function Strip(width: nat, out: Bytes): Bytes
    decreases |out|
  {
    if |out| <= width then []
    else
      var body := out[width..];
      var i := IndexNL(body);
      if i == |body| then body else body[..i + 1] + Strip(width, body[i + 1..])
  }

  lemma {:induction false} StripRender(prefix: Bytes, ls: seq<Bytes>)
    requires forall k :: 0 <= k < |ls| ==> IsLine(ls[k])
    ensures Strip(|prefix|, Render(prefix, ls)) == Flatten(ls)
    decreases |ls|
  {
    if ls != [] {
      var more := Render(prefix, ls[1..]);
      var out := Render(prefix, ls);
      assert out[|prefix|..] == ls[0] + more;
      IndexConcat(ls[0], more);
      assert (ls[0] + more)[..|ls[0]|] == ls[0] && (ls[0] + more)[|ls[0]|..] == more;
      StripRender(prefix, ls[1..]);
    }
  }

  /** Nothing is lost or invented: stripping the prefixes and appending the tail gives back the input. */
  lemma WriterRoundTrip(prefix: Bytes, chunks: seq<Bytes>)
    ensures var (out, tail) := WriteAll(prefix, chunks);
      Strip(|prefix|, out) + tail == Flatten(chunks) && NL !in tail
  {
    var input := Flatten(chunks);
    ChunkingIsInvisible(prefix, chunks);
    LinesCover(input);
    StripRender(prefix, Lines(input));
  }

  // ------------------------------------------------------------------
  // Seeking to the last lines
  // ------------------------------------------------------------------

  function Count(s: Bytes): nat {
    if s == [] then 0 else (if s[0] == NL then 1 else 0) + Count(s[1..])
  }

  /** Where the last `lines` newlines begin: just after an earlier newline, or at the start. */
  predicate TailStart(content: Bytes, lines: nat, pos: nat) {
    && pos <= |content|
    && (Count(content) <= lines ==> pos == 0)
    && (Count(content) > lines ==> pos > 0 && content[pos - 1] == NL && Count(content[pos..]) == lines)
  }

  /** The same count as the backward scan sees it: by position, without cutting. */
  function CountFrom(s: Bytes, k: nat): nat
    requires k <= |s|
    decreases |s| - k
  {
    if k == |s| then 0 else (if s[k] == NL then 1 else 0) + CountFrom(s, k + 1)
  }

  lemma {:induction false} CountFromSuffix(s: Bytes, k: nat)
    requires k <= |s|
    ensures CountFrom(s, k) == Count(s[k..])
    decreases |s| - k
  {
    if k < |s| {
      CountFromSuffix(s, k + 1);
      assert s[k..][1..] == s[k + 1..];
    }
  }

  lemma TailFound(content: Bytes, lines: nat, k: nat)
    requires k < |content| && content[k] == NL && CountFrom(content, k + 1) == lines
    ensures TailStart(content, lines, k + 1)
  {
    CountFromSuffix(content, k);
    CountFromSuffix(content, k + 1);
    CountSuffix(content, k);
  }

  /**
   seekTail: scans blocks from the end. `at` is the position before the call; the source
   uses 4096-byte blocks, and any block size gives the same answer.
   */
  method SeekTail(content: Bytes, lines: int, block: nat, at: nat) returns (pos: nat)
    requires block >= 1
    ensures content == [] || lines <= 0 ==> pos == at
    ensures content != [] && lines > 0 ==> TailStart(content, lines, pos)
  {
    if |content| == 0 || lines <= 0 {
      return at;
    }
    var want := lines + 1;
    var off := |content|;
    var found := 0;
    while off > 0
      invariant 0 <= off <= |content|
      invariant found == CountFrom(content, off) && found < want
    {
      var chunk := if off < block then off else block;
      off := off - chunk;
      var buf := content[off..off + chunk];
      var i := chunk - 1;
      while i >= 0
        invariant -1 <= i < chunk
        invariant found == CountFrom(content, off + i + 1) && found < want
      {
        if buf[i] == NL {
          found := found + 1;
          if found == want {
            TailFound(content, lines, off + i);
            return off + i + 1;
          }
        }
        i := i - 1;
      }
    }
    CountFromSuffix(content, 0);
    assert content[0..] == content;
    return 0;
  }

  lemma {:induction false} CountSuffix(s: Bytes, k: nat)
    requires k <= |s|
    ensures Count(s) >= Count(s[k..])
    decreases k
  {
    if k > 0 {
      CountSuffix(s[1..], k - 1);
      assert s[1..][k - 1..] == s[k..];
    } else {
      assert s[0..] == s;
    }
  }

  /** The position is determined by the content. */
  lemma TailStartUnique(content: Bytes, lines: nat, p: nat, q: nat)
    requires TailStart(content, lines, p) && TailStart(content, lines, q)
    ensures p == q
  {
    if p < q {
      CountStrict(content, p, q);
    } else if q < p {
      CountStrict(content, q, p);
    }
  }

  lemma CountStrict(s: Bytes, p: nat, q: nat)
    requires p < q <= |s| && s[q - 1] == NL
    ensures Count(s[p..]) > Count(s[q..])
  {
    assert s[q - 1..][0] == NL && s[q - 1..][1..] == s[q..];
    CountSuffix(s[p..], q - 1 - p);
    assert s[p..][q - 1 - p..] == s[q - 1..];
  }

  lemma {:induction false} CountIsLines(s: Bytes)
    ensures Count(s) == |Lines(s)|
    decreases |s|
  {
    if s != [] {
      CountIsLines(s[1..]);
      var i := IndexNL(s);
      if s[0] != NL && i < |s| {
        assert s[1..][i..] == s[i + 1..];
        assert IndexNL(s[1..]) == i - 1;
        assert s[1..][i - 1 + 1..] == s[i + 1..];
      }
    }
  }

  /** In whole-file terms: what is read from there is exactly the last `lines` lines and any unfinished one. */
  lemma TailIsLastLines(content: Bytes, lines: nat, pos: nat)
    requires TailStart(content, lines, pos)
    ensures var ls := Lines(content);
      var skip := if |ls| <= lines then 0 else |ls| - lines;
      content[pos..] == Flatten(ls[skip..]) + Rest(content)
  {
    CountIsLines(content);
    if pos == 0 {
      LinesCover(content);
      assert content[0..] == content && Lines(content)[0..] == Lines(content);
    } else {
      var x, y := content[..pos], content[pos..];
      assert x + y == content;
      LinesConcat(x, y);
      EndsInNewline(x);
      assert [] + y == y;
      CountIsLines(y);
      LinesCover(y);
      assert Lines(content)[|Lines(x)|..] == Lines(y);
    }
  }

  lemma EndsInNewline(x: Bytes)
    requires x != [] && x[|x| - 1] == NL
    ensures Rest(x) == []
  {
    LinesCover(x);
    LastElement(Flatten(Lines(x)), Rest(x));
  }

  lemma LastElement<T>(a: seq<T>, b: seq<T>)
    ensures b != [] ==> (a + b)[|a + b| - 1] == b[|b| - 1]
  {
  }
}
