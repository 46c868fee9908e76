/**
 grub.cfg: rewriting its `set default=` line, and what GRUB then boots. The file is text;
 GRUB runs the last `set default=` line and boots that menu entry's kernel line.
 */
module GrubConfig {
  import opened Prelude
  import opened Text
  import opened UpdateProtocol

  const DEFAULT_KEY := "set default="

  /** slotIndex: the menu entry of a slot, by name. */
  function SlotOf(name: string): Option<Slot> {
    if name == "slot_a" then Some(SlotA) else if name == "slot_b" then Some(SlotB) else None
  }

  function Digit(s: Slot): string {
    if s == SlotA then "0" else "1"
  }

  function DefaultLine(s: Slot): string {
    DEFAULT_KEY + Digit(s)
  }

  predicate IsDefault(line: string) {
    HasPrefix(TrimSpace(line), DEFAULT_KEY)
  }

  /** The index of the first `set default=` line, or the number of lines. */
  function FirstDefault(lines: seq<string>): (i: nat)
    ensures i <= |lines|
    ensures i < |lines| ==> IsDefault(lines[i])
    ensures forall j :: 0 <= j < i ==> !IsDefault(lines[j])
  {
    if lines == [] || IsDefault(lines[0]) then 0 else 1 + FirstDefault(lines[1..])
  }

  datatype RewriteResult = Rewritten(text: string) | UnknownSlot | ReadFailed | NoDefaultLine | WriteFailed

  /** rewriteGrubDefault, as a function of the file's text. */
  function Rewrite(text: string, s: Slot): Option<string> {
    var lines := Split(text, '\n');
    var i := FirstDefault(lines);
    if i == |lines| then None else Some(Join(lines[i := DefaultLine(s)], '\n'))
  }

  method RewriteGrubDefault(text: string, name: string, readOk: bool, writeOk: bool) returns (r: RewriteResult)
    ensures SlotOf(name).None? <==> r == UnknownSlot
    ensures SlotOf(name).Some? ==>
              r == if !readOk then ReadFailed
                   else match Rewrite(text, SlotOf(name).value)
                     case None => NoDefaultLine
                     case Some(t) => if writeOk then Rewritten(t) else WriteFailed
    ensures r != UnknownSlot <==> name == "slot_a" || name == "slot_b"
    ensures r.Rewritten? ==> Some(r.text) == Rewrite(text, if name == "slot_a" then SlotA else SlotB)
  {
    var slot := SlotOf(name);
    if slot.None? {
      return UnknownSlot;
    }
    if !readOk {
      return ReadFailed;
    }
    var lines := Split(text, '\n');
    ghost var original := lines;
    var found := false;
    for i := 0 to |lines|
      invariant !found && lines == original
      invariant forall j :: 0 <= j < i ==> !IsDefault(original[j])
    {
      if HasPrefix(TrimSpace(lines[i]), DEFAULT_KEY) {
        assert FirstDefault(original) == i;
        lines := lines[i := DefaultLine(slot.value)];
        found := true;
        break;
      }
    }
    if !found {
      return NoDefaultLine;
    }
    return if writeOk then Rewritten(Join(lines, '\n')) else WriteFailed;
  }

  lemma DefaultLineIsDefault(s: Slot)
    ensures TrimSpace(DefaultLine(s)) == DefaultLine(s) && IsDefault(DefaultLine(s)) && '\n' !in DefaultLine(s)
  {
    TrimIndented("", DefaultLine(s));
    assert "" + DefaultLine(s) == DefaultLine(s);
  }

  /** Only the first default line changes; every other line is kept. */
  lemma RewriteChangesOneLine(text: string, s: Slot)
    requires Rewrite(text, s).Some?
    ensures var lines := Split(text, '\n');
      Split(Rewrite(text, s).value, '\n') == lines[FirstDefault(lines) := DefaultLine(s)]
  {
    var lines := Split(text, '\n');
    SplitFree(text, '\n');
    DefaultLineIsDefault(s);
    SplitJoin(lines[FirstDefault(lines) := DefaultLine(s)], '\n');
  }

  /** In bytes: the file is the same before and after the first default line, whatever it holds. */
  lemma RewriteKeepsBytes(text: string, s: Slot)
    requires Rewrite(text, s).Some?
    ensures var lines := Split(text, '\n'); var i := FirstDefault(lines);
      var pre, post := Before(lines[..i], '\n'), After(lines[i + 1..], '\n');
      text == pre + lines[i] + post && Rewrite(text, s).value == pre + DefaultLine(s) + post
  {
    var lines := Split(text, '\n');
    var i := FirstDefault(lines);
    JoinSplit(text, '\n');
    JoinAt(lines, i, '\n');
    var lines' := lines[i := DefaultLine(s)];
    assert lines'[..i] == lines[..i] && lines'[i + 1..] == lines[i + 1..];
    JoinAt(lines', i, '\n');
  }

  predicate NoDefault(lines: seq<string>) {
    forall i :: 0 <= i < |lines| ==> !IsDefault(lines[i])
  }

  /** The rewrite is refused exactly when the file has no default line. */
  lemma RewriteRefusedIff(text: string, s: Slot)
    ensures Rewrite(text, s) == None <==> NoDefault(Split(text, '\n'))
  {
    var lines := Split(text, '\n');
    var k := FirstDefault(lines);
    if k < |lines| {
      assert IsDefault(lines[k]);
      assert !NoDefault(lines);
    } else {
      assert NoDefault(lines);
    }
  }

  lemma FirstDefaultUpdated(lines: seq<string>, s: Slot)
    requires FirstDefault(lines) < |lines|
    ensures FirstDefault(lines[FirstDefault(lines) := DefaultLine(s)]) == FirstDefault(lines)
  {
    var i := FirstDefault(lines);
    var lines' := lines[i := DefaultLine(s)];
    DefaultLineIsDefault(s);
    assert lines'[i] == DefaultLine(s) && lines'[..i] == lines[..i];
    assert forall j :: 0 <= j < i ==> lines'[j] == lines[j];
  }

  /** The last rewrite wins, whatever was written before it. */
  lemma LastRewriteWins(text: string, s: Slot, t: Slot)
    requires Rewrite(text, s).Some?
    ensures Rewrite(Rewrite(text, s).value, t) == Rewrite(text, t)
  {
    var lines := Split(text, '\n');
    RewriteChangesOneLine(text, s);
    FirstDefaultUpdated(lines, s);
    var i := FirstDefault(lines);
    assert lines[i := DefaultLine(s)][i := DefaultLine(t)] == lines[i := DefaultLine(t)];
  }

  // ------------------------------------------------------------------
  // What GRUB boots
  // ------------------------------------------------------------------

  /** GRUB runs every `set default=`, so the last one counts. */
  function Chosen(lines: seq<string>): Option<string> {
    if lines == [] then None
    else
      var last := TrimSpace(lines[|lines| - 1]);
      if HasPrefix(last, DEFAULT_KEY) then Some(last[|DEFAULT_KEY|..]) else Chosen(lines[..|lines| - 1])
  }

  lemma {:induction false} ChosenIsLast(lines: seq<string>, i: nat)
    requires i < |lines| && IsDefault(lines[i])
    requires forall j :: i < j < |lines| ==> !IsDefault(lines[j])
    ensures Chosen(lines) == Some(TrimSpace(lines[i])[|DEFAULT_KEY|..])
    decreases |lines|
  {
    if i < |lines| - 1 {
      ChosenIsLast(lines[..|lines| - 1], i);
    }
  }

  /** The rewritten file boots the requested entry exactly when no later default line overrides it with another. */
  lemma RewriteTakesEffectIff(text: string, s: Slot)
    requires Rewrite(text, s).Some?
    ensures var lines := Split(text, '\n');
      Chosen(Split(Rewrite(text, s).value, '\n')) == Some(Digit(s)) <==>
      ((forall j :: FirstDefault(lines) < j < |lines| ==> !IsDefault(lines[j])) || Chosen(lines) == Some(Digit(s)))
  {
    var lines := Split(text, '\n');
    var i := FirstDefault(lines);
    var lines' := lines[i := DefaultLine(s)];
    RewriteChangesOneLine(text, s);
    DefaultLineIsDefault(s);
    if forall j :: i < j < |lines| ==> !IsDefault(lines[j]) {
      ChosenIsLast(lines', i);
    } else {
      var k := LastDefault(lines);
      ChosenIsLast(lines, k);
      ChosenIsLast(lines', k);
    }
  }

  function LastDefault(lines: seq<string>): (k: nat)
    requires exists j :: 0 <= j < |lines| && IsDefault(lines[j])
    ensures k < |lines| && IsDefault(lines[k])
    ensures forall j :: k < j < |lines| ==> !IsDefault(lines[j])
  {
    if IsDefault(lines[|lines| - 1]) then |lines| - 1 else LastDefault(lines[..|lines| - 1])
  }

  /** The words of each kernel line, one per menu entry, in order. */
  function KernelLines(lines: seq<string>): seq<seq<string>> {
    KernelWords(Map(Fields, lines))
  }

  function Map<A, B>(f: A -> B, xs: seq<A>): seq<B> {
    seq(|xs|, i requires 0 <= i < |xs| => f(xs[i]))
  }

  function KernelWords(wss: seq<seq<string>>): seq<seq<string>> {
    if wss == [] then [] else (if StartsKernel(wss[0]) then [wss[0]] else []) + KernelWords(wss[1..])
  }

  predicate StartsKernel(words: seq<string>) {
    words != [] && words[0] == "linux"
  }

  /** The kernel line GRUB boots: entry 0 or 1, as `set default=` says. */
  function Booted(text: string): Option<seq<string>> {
    var lines := Split(text, '\n');
    var entries := KernelLines(lines);
    match Chosen(lines)
    case None => None
    case Some(d) =>
      if d == "0" && |entries| > 0 then Some(entries[0])
      else if d == "1" && |entries| > 1 then Some(entries[1])
      else None
  }

  /** detectActiveSlot over the words of the kernel command line. */
  function DetectActiveSlot(words: seq<string>): Option<Slot> {
    if words == [] then None
    else if words[0] == "capsule.slot=a" then Some(SlotA)
    else if words[0] == "capsule.slot=b" then Some(SlotB)
    else DetectActiveSlot(words[1..])
  }

  /** The first slot word decides; without one no slot is detected. */
  lemma {:induction false} DetectIff(words: seq<string>)
    ensures DetectActiveSlot(words) == None <==> "capsule.slot=a" !in words && "capsule.slot=b" !in words
    ensures DetectActiveSlot(words).Some? ==>
              exists i :: 0 <= i < |words|
                && words[i] == (if DetectActiveSlot(words) == Some(SlotA) then "capsule.slot=a" else "capsule.slot=b")
                && forall j :: 0 <= j < i ==> words[j] != "capsule.slot=a" && words[j] != "capsule.slot=b"
  {
    assert "capsule.slot=a"[13] != "capsule.slot=b"[13];
    if words != [] {
      DetectIff(words[1..]);
      if words[0] == "capsule.slot=a" || words[0] == "capsule.slot=b" {
        assert words[0] in words;
      } else if DetectActiveSlot(words).Some? {
        var i :| 0 <= i < |words[1..]|
          && words[1..][i] == (if DetectActiveSlot(words) == Some(SlotA) then "capsule.slot=a" else "capsule.slot=b")
          && forall j :: 0 <= j < i ==> words[1..][j] != "capsule.slot=a" && words[1..][j] != "capsule.slot=b";
        assert words[i + 1] == words[1..][i];
        assert forall j :: 0 < j < i + 1 ==> words[j] == words[1..][j - 1];
      }
    }
  }

  const ROOT_KEY := "root=PARTUUID="

  /** The disk signature and partition suffix of the first `root=PARTUUID=` word. */
  function RootPartition(words: seq<string>): Option<(string, string)> {
    if words == [] then None
    else if HasPrefix(words[0], ROOT_KEY) then Cut(words[0][|ROOT_KEY|..], '-')
    else RootPartition(words[1..])
  }

  /** A partition number as PARTUUIDs spell it. */
  function TwoDigits(n: nat): string
    requires n < 100
  {
    [DIGITS[n / 10], DIGITS[n % 10]]
  }

  /** The kernel line GRUB boots when the operator picks a slot's entry in the menu. */
  function Picked(text: string, s: Slot): Option<seq<string>> {
    var entries := KernelLines(Split(text, '\n'));
    var i := if s == SlotA then 0 else 1;
    if i < |entries| then Some(entries[i]) else None
  }

  // ------------------------------------------------------------------
  // The file the installer writes
  // ------------------------------------------------------------------

  /** slotLetter. */
  function SlotLetter(s: Slot): string {
    if s == SlotA then "a" else "b"
  }

  /** slotPartitionNumber. */
  function SlotPartitionNumber(s: Slot): nat {
    if s == SlotA then 2 else 3
  }

  const DISK_SIGNATURE := "b1a570ff"

  function RootArg(s: Slot): string {
    if s == SlotA then "root=PARTUUID=b1a570ff-02" else "root=PARTUUID=b1a570ff-03"
  }

  function SlotArg(s: Slot): string {
    if s == SlotA then "capsule.slot=a" else "capsule.slot=b"
  }

  function KernelPath(s: Slot): string {
    if s == SlotA then "/vmlinuz_a" else "/vmlinuz_b"
  }

  function InitramfsPath(s: Slot): string {
    if s == SlotA then "/initramfs_a" else "/initramfs_b"
  }

  function MenuTitle(s: Slot): string {
    if s == SlotA then "(slot_a)\"" else "(slot_b)\""
  }

  function KernelArgs(s: Slot): seq<string> {
    ["linux", KernelPath(s), RootArg(s), "rootfstype=squashfs", "ro", "random.trust_cpu=on", SlotArg(s),
     "console=tty0", "console=ttyS0,115200n8", "panic=10"]
  }

  function MenuWords(s: Slot): seq<string> {
    ["menuentry", "\"Capsule", MenuTitle(s), "{"]
  }

  function InitrdWords(s: Slot): seq<string> {
    ["initrd", InitramfsPath(s)]
  }

  /** The menu entry of a slot loads the files a push writes for it. */
  lemma EntryLoadsPushedFiles(s: Slot)
    ensures KernelArgs(s)[1] == "/" + ("vmlinuz_" + SlotLetter(s))
    ensures InitrdWords(s)[1] == "/" + ("initramfs_" + SlotLetter(s))
  {
  }

  const TIMEOUT_WORDS := ["set", "timeout=2"]
  const CLOSE_WORDS := ["}"]

  const INDENT := "    "

  function Line(indent: string, ws: seq<string>): string {
    indent + Join(ws, ' ')
  }

  function Entry(menu: seq<string>, args: seq<string>, initrd: seq<string>, close: seq<string>): seq<string> {
    [Line("", menu), Line(INDENT, args), Line(INDENT, initrd), Line("", close)]
  }

  function Config(timeout: string, default: string, a: seq<string>, b: seq<string>): seq<string> {
    [timeout] + ([default] + ([""] + (a + ([""] + (b + [""])))))
  }

  function SlotEntry(s: Slot): seq<string> {
    Entry(MenuWords(s), KernelArgs(s), InitrdWords(s), CLOSE_WORDS)
  }

  /** The runtime grub.cfg with its default on slot `s`. */
  function InstalledLines(s: Slot): seq<string> {
    Config(Line("", TIMEOUT_WORDS), DefaultLine(s), SlotEntry(SlotA), SlotEntry(SlotB))
  }

  function Installed(s: Slot): string {
    Join(InstalledLines(s), '\n')
  }

  predicate Printable(w: string) {
    w != [] && forall i :: 0 <= i < |w| ==> '!' <= w[i] <= '~'
  }

  predicate AllPrintable(ws: seq<string>) {
    forall i :: 0 <= i < |ws| ==> Printable(ws[i])
  }

  /** A line of printable words has no newline, starts with its first word and ends with its last. */
  lemma {:induction false} JoinPrintable(ws: seq<string>)
    requires ws != [] && AllPrintable(ws)
    ensures var s := Join(ws, ' ');
      && s != [] && '\n' !in s && !IsSpace(s[0]) && !IsSpace(s[|s| - 1])
      && HasPrefix(s, ws[0])
  {
    if |ws| > 1 {
      JoinPrintable(ws[1..]);
    }
  }

  /** Such a line, indented, keeps its words; trimming it gives the words joined. */
  lemma IndentedLine(indent: string, ws: seq<string>)
    requires indent == "" || indent == INDENT
    requires ws != [] && AllPrintable(ws)
    ensures var line := Line(indent, ws);
      Fields(line) == ws && TrimSpace(line) == Join(ws, ' ') && '\n' !in line
  {
    JoinPrintable(ws);
    FieldsJoin(ws);
    FieldsIndented(indent, Join(ws, ' '));
    TrimIndented(indent, Join(ws, ' '));
  }

  /** A line of words that do not begin like `set` has no newline and is not a default line. */
  lemma WordLine(indent: string, ws: seq<string>)
    requires indent == "" || indent == INDENT
    requires PlainWords(ws)
    ensures PlainLine(Line(indent, ws)) && Fields(Line(indent, ws)) == ws
  {
    IndentedLine(indent, ws);
    JoinPrintable(ws);
    assert Join(ws, ' ')[0] == ws[0][0] && DEFAULT_KEY[0] == 's';
  }

  predicate PlainWords(ws: seq<string>) {
    ws != [] && AllPrintable(ws) && ws[0][0] != 's'
  }

  predicate IsKernelLine(line: string) {
    StartsKernel(Fields(line))
  }

  lemma KernelWordsCons(words: seq<string>, rest: seq<seq<string>>)
    ensures KernelWords([words] + rest) == (if StartsKernel(words) then [words] else []) + KernelWords(rest)
  {
    assert ([words] + rest)[1..] == rest;
  }

  lemma MapAppend<A, B>(f: A -> B, xs: seq<A>, ys: seq<A>)
    ensures Map(f, xs + ys) == Map(f, xs) + Map(f, ys)
  {
  }

  lemma MapOne<A, B>(f: A -> B, x: A)
    ensures Map(f, [x]) == [f(x)]
  {
  }

  lemma MapFour<A, B>(f: A -> B, x0: A, x1: A, x2: A, x3: A)
    ensures Map(f, [x0, x1, x2, x3]) == [f(x0), f(x1), f(x2), f(x3)]
  {
  }

  lemma KernelLinesCons(line: string, rest: seq<string>)
    ensures KernelLines([line] + rest) == (if IsKernelLine(line) then [Fields(line)] else []) + KernelLines(rest)
  {
    MapAppend(Fields, [line], rest);
    MapOne(Fields, line);
    KernelWordsCons(Fields(line), Map(Fields, rest));
  }

  lemma KernelWordsOfEntry(w0: seq<string>, w1: seq<string>, w2: seq<string>, w3: seq<string>, rest: seq<seq<string>>)
    requires !StartsKernel(w0) && StartsKernel(w1) && !StartsKernel(w2) && !StartsKernel(w3)
    ensures KernelWords([w0, w1, w2, w3] + rest) == [w1] + KernelWords(rest)
  {
    KernelWordsCons(w3, rest);
    KernelWordsCons(w2, [w3] + rest);
    KernelWordsCons(w1, [w2] + ([w3] + rest));
    KernelWordsCons(w0, [w1] + ([w2] + ([w3] + rest)));
    assert [w0, w1, w2, w3] + rest == [w0] + ([w1] + ([w2] + ([w3] + rest)));
  }

  lemma KernelLinesOfEntry(l0: string, l1: string, l2: string, l3: string, rest: seq<string>)
    requires !IsKernelLine(l0) && IsKernelLine(l1) && !IsKernelLine(l2) && !IsKernelLine(l3)
    ensures KernelLines([l0, l1, l2, l3] + rest) == [Fields(l1)] + KernelLines(rest)
  {
    MapAppend(Fields, [l0, l1, l2, l3], rest);
    MapFour(Fields, l0, l1, l2, l3);
    KernelWordsOfEntry(Fields(l0), Fields(l1), Fields(l2), Fields(l3), Map(Fields, rest));
  }

  predicate EntryHeads(menu: seq<string>, args: seq<string>, initrd: seq<string>, close: seq<string>) {
    && PlainWords(menu) && PlainWords(args) && PlainWords(initrd) && PlainWords(close)
    && menu[0] != "linux" && args[0] == "linux" && initrd[0] != "linux" && close[0] != "linux"
  }

  predicate PlainLine(line: string) {
    '\n' !in line && !IsDefault(line)
  }

  lemma FourPlain(l0: string, l1: string, l2: string, l3: string)
    requires PlainLine(l0) && PlainLine(l1) && PlainLine(l2) && PlainLine(l3)
    ensures var e := [l0, l1, l2, l3]; Free(e, '\n') && NoDefault(e)
  {
  }

  lemma EntryIsPlain(menu: seq<string>, args: seq<string>, initrd: seq<string>, close: seq<string>)
    requires EntryHeads(menu, args, initrd, close)
    ensures var e := Entry(menu, args, initrd, close); Free(e, '\n') && NoDefault(e)
  {
    WordLine("", menu);
    WordLine(INDENT, args);
    WordLine(INDENT, initrd);
    WordLine("", close);
    FourPlain(Line("", menu), Line(INDENT, args), Line(INDENT, initrd), Line("", close));
  }

  /** One menu entry: four plain lines holding one kernel line. */
  lemma EntryLines(menu: seq<string>, args: seq<string>, initrd: seq<string>, close: seq<string>, rest: seq<string>)
    requires EntryHeads(menu, args, initrd, close)
    ensures KernelLines(Entry(menu, args, initrd, close) + rest) == [args] + KernelLines(rest)
  {
    WordLine("", menu);
    WordLine(INDENT, args);
    WordLine(INDENT, initrd);
    WordLine("", close);
    KernelLinesOfEntry(Line("", menu), Line(INDENT, args), Line(INDENT, initrd), Line("", close), rest);
  }

  lemma PrintableList(a0: string, a1: string, a2: string, a3: string, ws: seq<string>)
    requires Printable(a0) && Printable(a1) && Printable(a2) && Printable(a3) && AllPrintable(ws)
    ensures AllPrintable([a0]) && AllPrintable([a0, a1]) && AllPrintable([a0, a1, a2, a3])
    ensures AllPrintable([a0, a1, a2] + ws) && AllPrintable([a0, a1, a2, a3] + ws)
  {
  }

  lemma KernelArgsPrintable(s: Slot)
    ensures AllPrintable(KernelArgs(s))
  {
    SlotArgsPrintable(s);
    FixedArgsPrintable();
    PrintableList("console=tty0", "console=ttyS0,115200n8", "panic=10", "ro", []);
    var tail := ["console=tty0", "console=ttyS0,115200n8", "panic=10"] + [];
    PrintableList("rootfstype=squashfs", "ro", "random.trust_cpu=on", SlotArg(s), tail);
    var mid := ["rootfstype=squashfs", "ro", "random.trust_cpu=on", SlotArg(s)] + tail;
    PrintableList("linux", KernelPath(s), RootArg(s), "ro", mid);
    assert KernelArgs(s) == ["linux", KernelPath(s), RootArg(s)] + mid;
  }

  lemma SlotArgsPrintable(s: Slot)
    ensures Printable(KernelPath(s)) && Printable(RootArg(s)) && Printable(SlotArg(s))
  {
  }

  lemma FixedArgsPrintable()
    ensures Printable("linux") && Printable("rootfstype=squashfs") && Printable("ro")
        && Printable("random.trust_cpu=on")
    ensures Printable("console=tty0") && Printable("console=ttyS0,115200n8") && Printable("panic=10")
  {
  }

  lemma EntryWordsPrintable(s: Slot)
    ensures AllPrintable(MenuWords(s)) && AllPrintable(InitrdWords(s)) && AllPrintable(CLOSE_WORDS)
  {
    assert Printable(MenuTitle(s)) && Printable(InitramfsPath(s));
    assert Printable("menuentry") && Printable("\"Capsule") && Printable("{") && Printable("initrd") && Printable("}");
    PrintableList("menuentry", "\"Capsule", MenuTitle(s), "{", []);
    PrintableList("initrd", InitramfsPath(s), "{", "{", []);
    PrintableList("}", "{", "{", "{", []);
  }

  lemma SlotEntryLines(s: Slot, rest: seq<string>)
    ensures var e := SlotEntry(s);
      Free(e, '\n') && NoDefault(e) && KernelLines(e + rest) == [KernelArgs(s)] + KernelLines(rest)
  {
    KernelArgsPrintable(s);
    EntryWordsPrintable(s);
    FirstLetters(s);
    EntryIsPlain(MenuWords(s), KernelArgs(s), InitrdWords(s), CLOSE_WORDS);
    EntryLines(MenuWords(s), KernelArgs(s), InitrdWords(s), CLOSE_WORDS, rest);
  }

  lemma FirstLetters(s: Slot)
    ensures MenuWords(s)[0][0] == 'm' && KernelArgs(s)[0][0] == 'l' && InitrdWords(s)[0][0] == 'i' && "}"[0] == '}'
    ensures MenuWords(s)[0] != "linux" && KernelArgs(s)[0] == "linux" && InitrdWords(s)[0] != "linux" && "}" != "linux"
  {
  }

  lemma SetLine(word: string)
    requires Printable(word)
    ensures var line := Line("", ["set", word]);
      line == "set " + word && TrimSpace(line) == line && '\n' !in line && !IsKernelLine(line)
  {
    assert Printable("set");
    PrintableList("set", word, "set", "set", []);
    IndentedLine("", ["set", word]);
    assert "set"[0] == 's' && "linux"[0] == 'l';
    assert ["set", word][1..] == [word];
  }

  /** The same for any text that is such a line. */
  lemma SetLineIs(line: string, word: string)
    requires Printable(word) && line == "set " + word
    ensures '\n' !in line && !IsKernelLine(line) && TrimSpace(line) == line
  {
    SetLine(word);
  }

  /** It is no default line if its word does not begin like `default`. */
  lemma SetsSomethingElse(line: string)
    requires TrimSpace(line) == line && |line| > 4 && line[4] != 'd'
    ensures !IsDefault(line)
  {
    assert DEFAULT_KEY[4] == 'd';
  }

  lemma TimeoutText()
    ensures Printable("timeout=2") && Line("", TIMEOUT_WORDS) == "set " + "timeout=2"
  {
    assert TIMEOUT_WORDS[1..] == ["timeout=2"];
  }

  lemma TimeoutLine()
    ensures var t := Line("", TIMEOUT_WORDS); '\n' !in t && !IsDefault(t) && !IsKernelLine(t)
  {
    TimeoutText();
    var t := Line("", TIMEOUT_WORDS);
    SetLineIs(t, "timeout=2");
    assert t[4] == "timeout=2"[0];
    SetsSomethingElse(t);
  }

  lemma DefaultText(s: Slot)
    ensures Printable("default=" + Digit(s)) && DefaultLine(s) == "set " + ("default=" + Digit(s))
  {
  }

  lemma DefaultIsNoKernelLine(s: Slot)
    ensures !IsKernelLine(DefaultLine(s))
  {
    DefaultText(s);
    SetLineIs(DefaultLine(s), "default=" + Digit(s));
  }

  /** A two-entry file with one default line: that line is found first and last. */
  lemma ConfigDefault(timeout: string, d: string, a: seq<string>, b: seq<string>)
    requires '\n' !in timeout && !IsDefault(timeout) && '\n' !in d && IsDefault(d)
    requires Free(a, '\n') && Free(b, '\n')
    requires NoDefault(a) && NoDefault(b)
    ensures var lines := Config(timeout, d, a, b);
      && Split(Join(lines, '\n'), '\n') == lines && FirstDefault(lines) == 1
      && Chosen(lines) == Some(TrimSpace(d)[|DEFAULT_KEY|..])
  {
    var lines := Config(timeout, d, a, b);
    BlankLine();
    SplitJoin(lines, '\n');
    assert forall i :: 1 < i < |lines| ==> !IsDefault(lines[i]);
    assert lines[0] == timeout && lines[1] == d;
    ChosenIsLast(lines, 1);
  }

  /** ... and its kernel lines are those of its two entries. */
  lemma ConfigEntries(timeout: string, d: string, a: seq<string>, b: seq<string>, argsA: seq<string>,
      argsB: seq<string>)
    requires !IsKernelLine(timeout) && !IsKernelLine(d)
    requires KernelLines(b + [""]) == [argsB] + KernelLines([""])
    requires KernelLines(a + ([""] + (b + [""]))) == [argsA] + KernelLines([""] + (b + [""]))
    ensures KernelLines(Config(timeout, d, a, b)) == [argsA, argsB]
  {
    BlankLine();
    var r := a + ([""] + (b + [""]));
    assert KernelLines([""]) == [] by {
      KernelLinesCons("", []);
      assert [""] + [] == [""];
    }
    KernelLinesCons("", b + [""]);
    KernelLinesCons("", r);
    KernelLinesCons(d, [""] + r);
    KernelLinesCons(timeout, [d] + ([""] + r));
  }

  lemma BlankLine()
    ensures !IsDefault("") && !IsKernelLine("") && '\n' !in ""
  {
  }

  /** The installed file splits back into its lines, with the default on line 1 and one kernel line per slot. */
  lemma InstalledText(s: Slot)
    ensures var lines := InstalledLines(s);
      && Split(Installed(s), '\n') == lines && FirstDefault(lines) == 1 && Chosen(lines) == Some(Digit(s))
      && KernelLines(lines) == [KernelArgs(SlotA), KernelArgs(SlotB)]
  {
    var timeout, a, b := Line("", TIMEOUT_WORDS), SlotEntry(SlotA), SlotEntry(SlotB);
    TimeoutLine();
    DefaultLineIsDefault(s);
    DefaultIsNoKernelLine(s);
    SlotEntryLines(SlotB, [""]);
    SlotEntryLines(SlotA, [""] + (b + [""]));
    ConfigDefault(timeout, DefaultLine(s), a, b);
    ConfigEntries(timeout, DefaultLine(s), a, b, KernelArgs(SlotA), KernelArgs(SlotB));
  }

  lemma RewriteOf(text: string, lines: seq<string>, t: Slot)
    requires Split(text, '\n') == lines && FirstDefault(lines) == 1 && |lines| > 1
    ensures Rewrite(text, t) == Some(Join(lines[1 := DefaultLine(t)], '\n'))
  {
  }

  lemma BootedOf(text: string, lines: seq<string>, s: Slot, argsA: seq<string>, argsB: seq<string>)
    requires Split(text, '\n') == lines && Chosen(lines) == Some(Digit(s)) && KernelLines(lines) == [argsA, argsB]
    ensures Booted(text) == Some(if s == SlotA then argsA else argsB)
  {
  }

  /** The installed file boots its default, and rewriting it gives the installed file for the other one. */
  lemma InstalledBoots(s: Slot)
    ensures Booted(Installed(s)) == Some(KernelArgs(s))
  {
    InstalledText(s);
    BootedOf(Installed(s), InstalledLines(s), s, KernelArgs(SlotA), KernelArgs(SlotB));
  }

  lemma InstalledPicks(s: Slot, t: Slot)
    ensures Picked(Installed(s), t) == Some(KernelArgs(t))
  {
    InstalledText(s);
  }

  lemma InstalledRewrites(s: Slot, t: Slot)
    ensures Rewrite(Installed(s), t) == Some(Installed(t))
  {
    InstalledText(s);
    RewriteOf(Installed(s), InstalledLines(s), t);
    ConfigUpdate(Line("", TIMEOUT_WORDS), DefaultLine(s), DefaultLine(t), SlotEntry(SlotA), SlotEntry(SlotB));
  }

  lemma ConfigUpdate(timeout: string, d: string, e: string, a: seq<string>, b: seq<string>)
    ensures Config(timeout, d, a, b)[1 := e] == Config(timeout, e, a, b)
  {
  }

  function RewriteAll(text: string, ts: seq<Slot>): Option<string> {
    Iterate(Rewrite, text, ts)
  }

  function Iterate(rewrite: (string, Slot) -> Option<string>, text: string, ts: seq<Slot>): Option<string>
    decreases |ts|
  {
    if ts == [] then Some(text)
    else match rewrite(text, ts[0]) case None => None case Some(t) => Iterate(rewrite, t, ts[1..])
  }

  function LastOf(s: Slot, ts: seq<Slot>): Slot {
    if ts == [] then s else ts[|ts| - 1]
  }

  /** If each rewrite of a family of files stays in the family, so does any number of them. */
  lemma {:induction false} RewritesStay(rewrite: (string, Slot) -> Option<string>, file: Slot -> string, s: Slot,
      ts: seq<Slot>)
    requires forall a, b :: rewrite(file(a), b) == Some(file(b))
    ensures Iterate(rewrite, file(s), ts) == Some(file(LastOf(s, ts)))
    decreases |ts|
  {
    if ts != [] {
      RewritesStay(rewrite, file, ts[0], ts[1..]);
    }
  }

  /**
   After any number of rewrites of the installed file, GRUB boots the last slot asked for:
   the kernel line is that slot's, detectActiveSlot reports it, and the root partition is
   the one slotPartitionNumber gives, on the disk the installer signed.
   */
  lemma GrubFollowsRewrites(s: Slot, ts: seq<Slot>)
    ensures var text, last := RewriteAll(Installed(s), ts), LastOf(s, ts);
      && text.Some? && Booted(text.value).Some?
      && DetectActiveSlot(Booted(text.value).value) == Some(last)
      && RootPartition(Booted(text.value).value) == Some((DISK_SIGNATURE, TwoDigits(SlotPartitionNumber(last))))
  {
    var last := LastOf(s, ts);
    forall a, b
      ensures Rewrite(Installed(a), b) == Some(Installed(b))
    {
      InstalledRewrites(a, b);
    }
    RewritesStay(Rewrite, Installed, s, ts);
    InstalledBoots(last);
    ArgsNameSlot(last);
  }

  lemma {:induction false} DetectSkips(words: seq<string>, k: nat)
    requires k <= |words|
    requires forall i :: 0 <= i < k ==> words[i] != "capsule.slot=a" && words[i] != "capsule.slot=b"
    ensures DetectActiveSlot(words) == DetectActiveSlot(words[k..])
    decreases k
  {
    if k > 0 {
      DetectSkips(words[1..], k - 1);
      assert words[1..][k - 1..] == words[k..];
    }
  }

  lemma ArgsNameSlot(s: Slot)
    ensures DetectActiveSlot(KernelArgs(s)) == Some(s)
    ensures RootPartition(KernelArgs(s)) == Some((DISK_SIGNATURE, TwoDigits(SlotPartitionNumber(s))))
  {
    SlotWord(s);
    RootWord(s);
  }

  lemma SlotWord(s: Slot)
    ensures DetectActiveSlot(KernelArgs(s)) == Some(s)
  {
    var a := KernelArgs(s);
    NoSlotArgBefore(s);
    DetectSkips(a, 6);
    DetectFirst(a[6..], s);
  }

  lemma NoSlotArgBefore(s: Slot)
    ensures forall i :: 0 <= i < 6 ==> KernelArgs(s)[i] != "capsule.slot=a" && KernelArgs(s)[i] != "capsule.slot=b"
  {
    var a := KernelArgs(s);
    assert a[0][0] == 'l' && a[1][0] == '/' && a[2][0] == 'r' && a[3][0] == 'r' && a[4][0] == 'r' && a[5][0] == 'r';
    assert "capsule.slot=a"[0] == 'c' && "capsule.slot=b"[0] == 'c';
  }

  lemma DetectFirst(words: seq<string>, s: Slot)
    requires words != [] && words[0] == SlotArg(s)
    ensures DetectActiveSlot(words) == Some(s)
  {
    assert "capsule.slot=a"[13] != "capsule.slot=b"[13];
  }

  lemma RootArgParts(s: Slot)
    ensures RootArg(s)[|ROOT_KEY|..] == DISK_SIGNATURE + ['-'] + TwoDigits(SlotPartitionNumber(s))
  {
    var digits := TwoDigits(SlotPartitionNumber(s));
    assert digits == if s == SlotA then "02" else "03";
  }

  lemma RootWord(s: Slot)
    ensures RootPartition(KernelArgs(s)) == Some((DISK_SIGNATURE, TwoDigits(SlotPartitionNumber(s))))
  {
    var a := KernelArgs(s);
    assert a[0][0] == 'l' && a[1][0] == '/' && ROOT_KEY[0] == 'r';
    assert !HasPrefix(a[0], ROOT_KEY) && !HasPrefix(a[1], ROOT_KEY) && HasPrefix(a[2], ROOT_KEY);
    RootArgParts(s);
    CutAt(DISK_SIGNATURE, TwoDigits(SlotPartitionNumber(s)), '-');
    assert RootPartition(a[1..][1..]) == Cut(a[2][|ROOT_KEY|..], '-');
  }
}
