/**
 Receiving an update bundle: the chunk stream, the tar members, and what they do to the
 inactive slot. SHA-256, tar framing and the decoding of VERSION are parameters; every
 device, mount and store call carries its outcome in `Env`.
 */
module UpdateBundle {
  import opened Prelude
  import opened UpdateProtocol
  import opened UpdateOutcomes

  const VERSION := "VERSION"
  const VMLINUZ := "vmlinuz"
  const INITRAMFS := "initramfs"
  const ROOTFS := "rootfs.sqsh"
  const REQUIRED: set<string> := {VERSION, VMLINUZ, INITRAMFS, ROOTFS}

  /** A tar header and the part of its body the stream still held. */
  datatype RawMember = RawMember(name: string, size: nat, body: Bytes)

  type Member = m: RawMember | |m.body| <= m.size witness RawMember("", 0, [])

  predicate Complete(m: Member) {
    |m.body| == m.size
  }

  /** `clean`: the reader reached the end of the archive rather than an error. */
  datatype Tar = Tar(members: seq<Member>, clean: bool)

  datatype Tools = Tools(hash: Bytes -> string, untar: (Bytes, bool) -> Tar, versionOf: Bytes -> string)

  /** A finished chunk stream: what each call returned, the last one with EOF (`ok`) or an error. */
  datatype Source = Source(chunks: seq<Bytes>, last: Bytes, ok: bool)

  function Content(src: Source): Bytes {
    Flatten(src.chunks) + src.last
  }

  /**
   `rootfsLimit`: the device write fails after that many bytes; `kernelCopy`, `initramfsCopy`: a
   failed copy leaves those bytes.
   */
  datatype Env = Env(stagingOk: bool, slotFound: bool, sizeOk: bool, kernelStageOk: bool, initramfsStageOk: bool,
                     rootfsLimit: Option<nat>, bootOk: bool, kernelCopy: Option<Bytes>, initramfsCopy: Option<Bytes>,
                     grubOk: bool, storeOk: bool)

  datatype Failure =
    | StagingFailed | NoSlotDevice | MemberFailed(name: string) | TooLarge | TarBroken
    | StreamBroken | MissingMembers(names: set<string>) | SizeMismatch | ChecksumMismatch
    | BootFailed | StoreFailed
  {
    /** Raised no later than the checksum comparison. */
    predicate BeforeBoot() {
      !BootFailed? && !StoreFailed?
    }
  }

  datatype Result = Done(slot: Slot, version: string) | Failed(failure: Failure)

  // ------------------------------------------------------------------
  // The producer: chunks to one stream
  // ------------------------------------------------------------------

  lemma AddModulo(a: nat, b: nat)
    ensures (a % UINT64 + b) % UINT64 == (a + b) % UINT64
  {
  }

  /** However the bundle is cut into chunks, the pipe and the hash see the concatenation. */
  method Produce(src: Source) returns (stream: Bytes, bytesIn: nat, ok: bool)
    ensures stream == Content(src) && bytesIn == |Content(src)| % UINT64 && ok == src.ok
  {
    stream, bytesIn := [], 0;
    for i := 0 to |src.chunks|
      invariant stream == Flatten(src.chunks[..i])
      invariant bytesIn == |stream| % UINT64
    {
      FlattenAppend(src.chunks[..i], [src.chunks[i]]);
      assert src.chunks[..i] + [src.chunks[i]] == src.chunks[..i + 1];
      stream := stream + src.chunks[i];
      AddModulo(|Flatten(src.chunks[..i])|, |src.chunks[i]|);
      bytesIn := (bytesIn + |src.chunks[i]|) % UINT64;
    }
    assert src.chunks[..|src.chunks|] == src.chunks;
    AddModulo(|stream|, |src.last|);
    stream := stream + src.last;
    bytesIn := (bytesIn + |src.last|) % UINT64;
    ok := src.ok;
  }

  // ------------------------------------------------------------------
  // The member loop
  // ------------------------------------------------------------------

  /** `want` shrinks as members arrive; `rootfs` is the slot device, changed only once `dirty`. */
  datatype Scan = Scan(want: set<string>, version: string, kernel: Bytes, initramfs: Bytes, rootfs: Bytes, dirty: bool)

  /** The device after writing `data` at its start. */
  function Overlay(dev: Bytes, data: Bytes): Bytes {
    if |data| <= |dev| then data + dev[|data|..] else data
  }

  /** The bytes of the rootfs member that reach the device. */
  function Landed(m: Member, env: Env): Bytes {
    if env.rootfsLimit.Some? && env.rootfsLimit.value < |m.body| then m.body[..env.rootfsLimit.value] else m.body
  }

  /** One member; the failure, if any, ends the loop. */
  function OnMember(s: Scan, m: Member, tools: Tools, env: Env): (Scan, Option<Failure>) {
    if m.name !in s.want then
      (s, if Complete(m) then None else Some(MemberFailed(m.name)))
    else
      var left := s.want - {m.name};
      if m.name == VERSION then
        if Complete(m) then (s.(want := left, version := tools.versionOf(m.body)), None)
        else (s, Some(MemberFailed(m.name)))
      else if m.name == VMLINUZ then
        if Complete(m) && env.kernelStageOk then (s.(want := left, kernel := m.body), None)
        else (s, Some(MemberFailed(m.name)))
      else if m.name == INITRAMFS then
        if Complete(m) && env.initramfsStageOk then (s.(want := left, initramfs := m.body), None)
        else (s, Some(MemberFailed(m.name)))
      else if !env.sizeOk then (s, Some(MemberFailed(m.name)))
      else if m.size > |s.rootfs| then (s, Some(TooLarge))
      else
        var s' := s.(rootfs := Overlay(s.rootfs, Landed(m, env)), dirty := true);
        if Complete(m) && Landed(m, env) == m.body then (s'.(want := left), None)
        else (s', Some(MemberFailed(m.name)))
  }

  function ScanAll(s: Scan, ms: seq<Member>, tools: Tools, env: Env): (Scan, Option<Failure>)
    decreases |ms|
  {
    if ms == [] then (s, None)
    else
      var (s', f) := OnMember(s, ms[0], tools, env);
      if f.Some? then (s', f) else ScanAll(s', ms[1..], tools, env)
  }

  method ReadMembers(start: Scan, ms: seq<Member>, tools: Tools, env: Env) returns (s: Scan, failure: Option<Failure>)
    ensures (s, failure) == ScanAll(start, ms, tools, env)
  {
    s, failure := start, None;
    var i := 0;
    while i < |ms|
      invariant 0 <= i <= |ms|
      invariant failure == None
      invariant ScanAll(s, ms[i..], tools, env) == ScanAll(start, ms, tools, env)
    {
      var (s', f) := OnMember(s, ms[i], tools, env);
      assert ms[i..][0] == ms[i] && ms[i..][1..] == ms[i + 1..];
      s := s';
      if f.Some? {
        return s, f;
      }
      i := i + 1;
    }
  }

  /** The first member of that name. */
  function First(ms: seq<Member>, name: string): Option<Member> {
    if ms == [] then None else if ms[0].name == name then Some(ms[0]) else First(ms[1..], name)
  }

  predicate AllComplete(ms: seq<Member>) {
    forall i :: 0 <= i < |ms| ==> Complete(ms[i])
  }

  /** The node can take this member: it stages, or fits the slot and is written in full. */
  predicate Takes(name: string, m: Member, capacity: nat, env: Env) {
    && (name == VMLINUZ ==> env.kernelStageOk)
    && (name == INITRAMFS ==> env.initramfsStageOk)
    && (name == ROOTFS ==> env.sizeOk && m.size <= capacity && Landed(m, env) == m.body)
  }

  /** First occurrences decide: none is needed again once taken, and each is the one used. */
  predicate FirstsTaken(want: set<string>, ms: seq<Member>, capacity: nat, env: Env) {
    forall name :: name in want && First(ms, name).Some? ==> Takes(name, First(ms, name).value, capacity, env)
  }

  /** The loop gets through exactly when every member is complete and the first of each wanted name is taken. */
  lemma {:induction false} ScanSucceedsIff(s: Scan, ms: seq<Member>, tools: Tools, env: Env)
    requires s.want <= REQUIRED
    ensures ScanAll(s, ms, tools, env).1 == None <==>
            AllComplete(ms) && FirstsTaken(s.want, ms, |s.rootfs|, env)
    decreases |ms|
  {
    if ms != [] {
      var m := ms[0];
      var (s', f) := OnMember(s, m, tools, env);
      assert First(ms, m.name) == Some(m);
      assert forall name :: name != m.name ==> First(ms, name) == First(ms[1..], name);
      if f == None {
        ScanSucceedsIff(s', ms[1..], tools, env);
        assert |s'.rootfs| == |s.rootfs|;
        assert AllComplete(ms) <==> AllComplete(ms[1..]);
        if m.name in s.want {
          assert s'.want == s.want - {m.name};
          assert Takes(m.name, m, |s.rootfs|, env);
        }
        assert FirstsTaken(s.want, ms, |s.rootfs|, env) <==> FirstsTaken(s'.want, ms[1..], |s.rootfs|, env);
      }
    }
  }

  /** The first body under a wanted name, or what was there before. */
  function Pick(want: set<string>, ms: seq<Member>, name: string, before: Bytes): Bytes {
    if name in want && First(ms, name).Some? then First(ms, name).value.body else before
  }

  function Missing(want: set<string>, ms: seq<Member>): set<string> {
    set name | name in want && First(ms, name) == None
  }

  /** Each field as its first member leaves it. */
  function Firsts(s: Scan, ms: seq<Member>, tools: Tools): Scan {
    Scan(Missing(s.want, ms),
         if VERSION in s.want && First(ms, VERSION).Some?
         then tools.versionOf(First(ms, VERSION).value.body) else s.version,
         Pick(s.want, ms, VMLINUZ, s.kernel),
         Pick(s.want, ms, INITRAMFS, s.initramfs),
         if ROOTFS in s.want && First(ms, ROOTFS).Some?
         then Overlay(s.rootfs, First(ms, ROOTFS).value.body) else s.rootfs,
         s.dirty || (ROOTFS in s.want && First(ms, ROOTFS).Some?))
  }

  lemma NamesDiffer()
    ensures VERSION[0] == 'V' && VMLINUZ[0] == 'v' && INITRAMFS[0] == 'i' && ROOTFS[0] == 'r'
    ensures VERSION != VMLINUZ && VERSION != INITRAMFS && VERSION != ROOTFS
    ensures VMLINUZ != INITRAMFS && VMLINUZ != ROOTFS && INITRAMFS != ROOTFS
  {
  }

  /** Passing a member by: the firsts of the other names are those of the rest. */
  lemma FirstsSkip(s: Scan, ms: seq<Member>, tools: Tools)
    requires ms != [] && ms[0].name !in s.want
    ensures Firsts(s, ms[1..], tools) == Firsts(s, ms, tools)
  {
    assert forall name :: name in s.want ==> First(ms, name) == First(ms[1..], name);
    assert Missing(s.want, ms[1..]) == Missing(s.want, ms);
  }

  lemma MissingStep(want: set<string>, ms: seq<Member>)
    requires ms != [] && ms[0].name in want
    ensures Missing(want - {ms[0].name}, ms[1..]) == Missing(want, ms)
  {
    assert forall name :: name != ms[0].name ==> First(ms, name) == First(ms[1..], name);
  }

  lemma PickStep(want: set<string>, ms: seq<Member>, name: string, before: Bytes)
    requires ms != [] && ms[0].name in want
    ensures Pick(want, ms, name, before) ==
            Pick(want - {ms[0].name}, ms[1..], name, if ms[0].name == name then ms[0].body else before)
  {
  }

  /** Taking one member and then the firsts of the rest is taking the firsts of all. */
  lemma FirstsStep(s: Scan, ms: seq<Member>, tools: Tools, env: Env)
    requires s.want <= REQUIRED && ms != [] && OnMember(s, ms[0], tools, env).1 == None
    ensures Firsts(OnMember(s, ms[0], tools, env).0, ms[1..], tools) == Firsts(s, ms, tools)
  {
    var m := ms[0];
    if m.name !in s.want {
      FirstsSkip(s, ms, tools);
    } else {
      NamesDiffer();
      MissingStep(s.want, ms);
      PickStep(s.want, ms, VMLINUZ, s.kernel);
      PickStep(s.want, ms, INITRAMFS, s.initramfs);
    }
  }

  /** What a completed loop leaves: the names still missing, and the body of each first occurrence. */
  lemma {:induction false} ScanKeepsFirsts(s: Scan, ms: seq<Member>, tools: Tools, env: Env)
    requires s.want <= REQUIRED && ScanAll(s, ms, tools, env).1 == None
    ensures ScanAll(s, ms, tools, env).0 == Firsts(s, ms, tools)
    decreases |ms|
  {
    if ms == [] {
      assert Missing(s.want, ms) == s.want;
    } else {
      FirstsStep(s, ms, tools, env);
      ScanKeepsFirsts(OnMember(s, ms[0], tools, env).0, ms[1..], tools, env);
    }
  }

  // ------------------------------------------------------------------
  // The whole push
  // ------------------------------------------------------------------

  /** Case-insensitive comparison of hex digests. */
  predicate EqualFold(a: string, b: string) {
    |a| == |b| && forall i :: 0 <= i < |a| ==> Lower(a[i]) == Lower(b[i])
  }

  function Lower(c: char): char {
    if 'A' <= c <= 'Z' then c - 'A' + 'a' else c
  }

  /** The protocol events a push performs, in order, and what it returns. */
  datatype Plan = Plan(events: seq<Event>, result: Result)

  /** copyIfChanged: skipped when the digests agree; a failed copy leaves partial bytes. */
  function CopyEvents(part: Part, dst: Bytes, src: Bytes, failed: Option<Bytes>, tools: Tools): seq<Event> {
    if tools.hash(dst) == tools.hash(src) then []
    else [Write(part, if failed.Some? then failed.value else src)]
  }

  predicate CopyOk(dst: Bytes, src: Bytes, failed: Option<Bytes>, tools: Tools) {
    tools.hash(dst) == tools.hash(src) || failed == None
  }

  function Start(n: Node, next: Slot): Scan {
    Scan(REQUIRED, "", [], [], n.ImageOf(next).rootfs, false)
  }

  /** The checks made once the archive is read, in the order they are made. */
  function Verdict(s: Scan, stream: Bytes, ok: bool, size: nat, sha: string, tools: Tools): Option<Failure> {
    if !ok then Some(StreamBroken)
    else if s.want != {} then Some(MissingMembers(s.want))
    else if size != 0 && |stream| % UINT64 != size then Some(SizeMismatch)
    else if !EqualFold(tools.hash(stream), sha) then Some(ChecksumMismatch)
    else None
  }

  /** The boot-partition part of a push: kernel, initramfs, GRUB flip and row. */
  function BootPlan(n: Node, s: Scan, tools: Tools, env: Env): Plan
    requires n.power.Up?
  {
    var next := n.power.booted.Other();
    var img := n.ImageOf(next);
    if !env.bootOk then Plan([], Failed(BootFailed))
    else
      var k := CopyEvents(Kernel, img.kernel, s.kernel, env.kernelCopy, tools);
      if !CopyOk(img.kernel, s.kernel, env.kernelCopy, tools) then Plan(k, Failed(BootFailed))
      else
        var ki := k + CopyEvents(Initramfs, img.initramfs, s.initramfs, env.initramfsCopy, tools);
        if !CopyOk(img.initramfs, s.initramfs, env.initramfsCopy, tools) || !env.grubOk
        then Plan(ki, Failed(BootFailed))
        else
          Plan(ki + [Activate(env.storeOk, s.version)],
               if env.storeOk && n.row.Some? then Done(next, s.version) else Failed(StoreFailed))
  }

  /** ReceiveBundle, as a function of the concatenated stream. */
  function Push(n: Node, stream: Bytes, ok: bool, size: nat, sha: string, tools: Tools, env: Env): Plan
    requires n.power.Up?
  {
    var next := n.power.booted.Other();
    if !env.stagingOk then Plan([], Failed(StagingFailed))
    else if !env.slotFound then Plan([], Failed(NoSlotDevice))
    else
      var tar := tools.untar(stream, ok);
      var (s, f) := ScanAll(Start(n, next), tar.members, tools, env);
      var wrote := if s.dirty then [Write(Rootfs, s.rootfs)] else [];
      var verdict := if f.Some? then f
                     else if !tar.clean then Some(TarBroken)
                     else Verdict(s, stream, ok, size, sha, tools);
      if verdict.Some? then Plan(wrote, Failed(verdict.value))
      else
        var boot := BootPlan(n, s, tools, env);
        Plan(wrote + boot.events, boot.result)
  }

  /** The archive arrives whole, with every required member, and a slot of that capacity can take it. */
  ghost predicate Unpacked(stream: Bytes, ok: bool, capacity: nat, tools: Tools, env: Env) {
    var ms := tools.untar(stream, ok).members;
    && env.stagingOk && env.slotFound && ok
    && tools.untar(stream, ok).clean && AllComplete(ms)
    && (forall name :: name in REQUIRED ==> First(ms, name).Some? && Takes(name, First(ms, name).value, capacity, env))
  }

  function Capacity(n: Node): nat
    requires n.power.Up?
  {
    |n.ImageOf(n.power.booted.Other()).rootfs|
  }

  predicate SizeMatches(stream: Bytes, size: nat) {
    size == 0 || |stream| % UINT64 == size
  }

  /** The push gets as far as flipping GRUB, read off the stream and the environment. */
  ghost predicate Flips(n: Node, stream: Bytes, ok: bool, size: nat, sha: string, tools: Tools, env: Env)
    requires n.power.Up?
  {
    var img := n.ImageOf(n.power.booted.Other());
    var ms := tools.untar(stream, ok).members;
    && Unpacked(stream, ok, Capacity(n), tools, env)
    && SizeMatches(stream, size) && EqualFold(tools.hash(stream), sha)
    && env.bootOk && env.grubOk
    && CopyOk(img.kernel, First(ms, VMLINUZ).value.body, env.kernelCopy, tools)
    && CopyOk(img.initramfs, First(ms, INITRAMFS).value.body, env.initramfsCopy, tools)
  }

  /** Everything a push needs. */
  ghost predicate Accepted(n: Node, stream: Bytes, ok: bool, size: nat, sha: string, tools: Tools, env: Env)
    requires n.power.Up?
  {
    Flips(n, stream, ok, size, sha, tools, env) && env.storeOk && n.row.Some?
  }

  /** The scan ends without failure and nothing missing exactly when every member is complete and usable. */
  lemma ScanFindsAllIff(s: Scan, ms: seq<Member>, tools: Tools, env: Env)
    requires s.want == REQUIRED
    ensures var (t, f) := ScanAll(s, ms, tools, env);
      f == None && t.want == {} <==>
      && AllComplete(ms)
      && forall name :: name in REQUIRED ==>
           First(ms, name).Some? && Takes(name, First(ms, name).value, |s.rootfs|, env)
  {
    ScanSucceedsIff(s, ms, tools, env);
    if ScanAll(s, ms, tools, env).1 == None {
      ScanKeepsFirsts(s, ms, tools, env);
      var t := ScanAll(s, ms, tools, env).0;
      assert forall name :: name in t.want <==> name in REQUIRED && First(ms, name) == None;
    }
  }

  /** A push gets to the flip exactly when `Flips` says so; its result then says whether the row was written. */
  lemma PushFlipsIff(n: Node, stream: Bytes, ok: bool, size: nat, sha: string, tools: Tools, env: Env)
    requires n.power.Up?
    ensures var r := Push(n, stream, ok, size, sha, tools, env).result;
      && (r.Done? || r == Failed(StoreFailed) <==> Flips(n, stream, ok, size, sha, tools, env))
      && (r.Done? ==> env.storeOk && n.row.Some?)
      && (r == Failed(StoreFailed) ==> !(env.storeOk && n.row.Some?))
  {
    var start := Start(n, n.power.booted.Other());
    var ms := tools.untar(stream, ok).members;
    ScanFindsAllIff(start, ms, tools, env);
    ScanFailures(start, ms, tools, env);
    if ScanAll(start, ms, tools, env).1 == None {
      ScanKeepsFirsts(start, ms, tools, env);
    }
  }

  /** A push succeeds exactly when it is accepted. */
  lemma PushSucceedsIff(n: Node, stream: Bytes, ok: bool, size: nat, sha: string, tools: Tools, env: Env)
    requires n.power.Up?
    ensures Push(n, stream, ok, size, sha, tools, env).result.Done? <==> Accepted(n, stream, ok, size, sha, tools, env)
  {
    PushFlipsIff(n, stream, ok, size, sha, tools, env);
  }

  // ------------------------------------------------------------------
  // What a push leaves behind
  // ------------------------------------------------------------------

  lemma {:induction false} RunConcat(n: Node, a: seq<Event>, b: seq<Event>)
    ensures Run(n, a + b) == Run(Run(n, a), b)
    decreases |a|
  {
    if a == [] {
      assert a + b == b;
    } else {
      assert (a + b)[1..] == a[1..] + b;
      RunConcat(Step(n, a[0]), a[1..], b);
    }
  }

  /** At most one write, to one part of the inactive slot. */
  lemma CopyEffect(n: Node, part: Part, dst: Bytes, src: Bytes, failed: Option<Bytes>, tools: Tools)
    requires n.power.Up?
    ensures var m := Run(n, CopyEvents(part, dst, src, failed, tools));
      if tools.hash(dst) == tools.hash(src) then m == n
      else m == n.WriteImage(n.power.booted.Other(), part, if failed.Some? then failed.value else src)
  {
    var es := CopyEvents(part, dst, src, failed, tools);
    if es != [] {
      assert es[1..] == [];
    }
  }

  lemma {:induction false} RunOne(n: Node, e: Event)
    ensures Run(n, [e]) == Step(n, e)
  {
    assert [e][1..] == [];
  }

  /** The events of an accepted push: root image, kernel and initramfs where they changed, then the flip. */
  lemma AcceptedEvents(n: Node, stream: Bytes, ok: bool, size: nat, sha: string, tools: Tools, env: Env)
    requires n.power.Up? && Accepted(n, stream, ok, size, sha, tools, env)
    ensures var next := n.power.booted.Other();
      var t := Firsts(Start(n, next), tools.untar(stream, ok).members, tools);
      var p := Push(n, stream, ok, size, sha, tools, env);
      && p.result == Done(next, t.version)
      && p.events == InstallEvents(n.ImageOf(next), t, tools)
      && t.dirty
  {
    var next := n.power.booted.Other();
    var ms := tools.untar(stream, ok).members;
    PushSucceedsIff(n, stream, ok, size, sha, tools, env);
    ScanSucceedsIff(Start(n, next), ms, tools, env);
    ScanKeepsFirsts(Start(n, next), ms, tools, env);
    var t := Firsts(Start(n, next), ms, tools);
    assert First(ms, VMLINUZ).Some? && First(ms, INITRAMFS).Some? && First(ms, ROOTFS).Some?;
    assert t.kernel == First(ms, VMLINUZ).value.body && t.initramfs == First(ms, INITRAMFS).value.body;
  }

  function InstallEvents(img: Image, t: Scan, tools: Tools): seq<Event> {
    [Write(Rootfs, t.rootfs)]
    + (CopyEvents(Kernel, img.kernel, t.kernel, None, tools)
       + CopyEvents(Initramfs, img.initramfs, t.initramfs, None, tools)
       + [Activate(true, t.version)])
  }

  /** What those events leave on the node. */
  lemma InstallEffect(n: Node, t: Scan, tools: Tools)
    requires n.power.Up? && n.row.Some?
    ensures var next := n.power.booted.Other();
      var m := Run(n, InstallEvents(n.ImageOf(next), t, tools));
      && m.ImageOf(n.power.booted) == n.ImageOf(n.power.booted) && m.ImageOf(next).rootfs == t.rootfs
      && tools.hash(m.ImageOf(next).kernel) == tools.hash(t.kernel)
      && tools.hash(m.ImageOf(next).initramfs) == tools.hash(t.initramfs)
      && m.power == n.power && m.clock == n.clock && m.grub == next
      && m.row == Some(n.row.value.(pending := Some(next), deadline := n.clock + CONFIRM_WINDOW, version := t.version))
  {
    var img := n.ImageOf(n.power.booted.Other());
    var w := [Write(Rootfs, t.rootfs)];
    var k := CopyEvents(Kernel, img.kernel, t.kernel, None, tools);
    var i := CopyEvents(Initramfs, img.initramfs, t.initramfs, None, tools);
    var a := [Activate(true, t.version)];
    var n1 := Step(n, w[0]);
    var n2 := Run(n1, k);
    var n3 := Run(n2, i);
    RunConcat(n, w, k + i + a);
    RunOne(n, w[0]);
    RunConcat(n1, k + i, a);
    RunConcat(n1, k, i);
    CopyEffect(n1, Kernel, img.kernel, t.kernel, None, tools);
    CopyEffect(n2, Initramfs, img.initramfs, t.initramfs, None, tools);
    RunOne(n3, a[0]);
  }

  /** An accepted push installs the first members of the bundle and leaves the running slot alone. */
  lemma PushInstallsBundle(n: Node, stream: Bytes, ok: bool, size: nat, sha: string, tools: Tools, env: Env)
    requires n.power.Up? && Accepted(n, stream, ok, size, sha, tools, env)
    ensures var next := n.power.booted.Other();
      var ms := tools.untar(stream, ok).members;
      var p := Push(n, stream, ok, size, sha, tools, env);
      var m := Run(n, p.events);
      && p.result == Done(next, tools.versionOf(First(ms, VERSION).value.body))
      && m.ImageOf(n.power.booted) == n.ImageOf(n.power.booted)
      && m.ImageOf(next).rootfs == Overlay(n.ImageOf(next).rootfs, First(ms, ROOTFS).value.body)
      && tools.hash(m.ImageOf(next).kernel) == tools.hash(First(ms, VMLINUZ).value.body)
      && tools.hash(m.ImageOf(next).initramfs) == tools.hash(First(ms, INITRAMFS).value.body)
      && m.power == n.power && m.clock == n.clock && m.grub == next
      && m.row == Some(n.row.value.(pending := Some(next), deadline := n.clock + CONFIRM_WINDOW,
          version := p.result.version))
  {
    var next := n.power.booted.Other();
    AcceptedEvents(n, stream, ok, size, sha, tools, env);
    InstallEffect(n, Firsts(Start(n, next), tools.untar(stream, ok).members, tools), tools);
  }

  /** In bytes: the root image from offset 0, and every later byte of the slot as before. */
  lemma RootImageLands(n: Node, stream: Bytes, ok: bool, size: nat, sha: string, tools: Tools, env: Env, k: nat)
    requires n.power.Up? && Accepted(n, stream, ok, size, sha, tools, env) && k < Capacity(n)
    ensures var next := n.power.booted.Other();
      var image := First(tools.untar(stream, ok).members, "rootfs.sqsh");
      var after := Run(n, Push(n, stream, ok, size, sha, tools, env).events).ImageOf(next).rootfs;
      && image.Some? && |after| == Capacity(n)
      && after[k] == if k < |image.value.body| then image.value.body[k] else n.ImageOf(next).rootfs[k]
  {
    PushInstallsBundle(n, stream, ok, size, sha, tools, env);
    assert Takes(ROOTFS, First(tools.untar(stream, ok).members, ROOTFS).value, Capacity(n), env);
    assert Complete(First(tools.untar(stream, ok).members, ROOTFS).value) by {
      FirstIsMember(tools.untar(stream, ok).members, ROOTFS);
    }
  }

  lemma {:induction false} FirstIsMember(ms: seq<Member>, name: string)
    requires First(ms, name).Some?
    ensures exists i :: 0 <= i < |ms| && ms[i] == First(ms, name).value
  {
    if ms[0].name == name {
      assert ms[0] == First(ms, name).value;
    } else {
      FirstIsMember(ms[1..], name);
      var i :| 0 <= i < |ms[1..]| && ms[1..][i] == First(ms[1..], name).value;
      assert ms[i + 1] == First(ms, name).value;
    }
  }

  // ------------------------------------------------------------------
  // What success and refusal mean
  // ------------------------------------------------------------------

  predicate LowerHex(s: string) {
    forall i :: 0 <= i < |s| ==> '0' <= s[i] <= '9' || 'a' <= s[i] <= 'f'
  }

  predicate SameHexChar(x: char, y: char) {
    x == y || ('A' <= y <= 'F' && x as int == y as int + 32) || ('A' <= x <= 'F' && y as int == x as int + 32)
  }

  /** The same text but for the case of hex letters. */
  predicate SameHex(a: string, b: string) {
    |a| == |b| && forall i :: 0 <= i < |a| ==> SameHexChar(a[i], b[i])
  }

  predicate HexText(s: string) {
    forall i :: 0 <= i < |s| ==> '0' <= s[i] <= '9' || 'a' <= s[i] <= 'f' || 'A' <= s[i] <= 'F'
  }

  /** On hex texts the comparison is equality up to the case of letters. */
  lemma EqualFoldIff(a: string, b: string)
    requires HexText(a) && HexText(b)
    ensures EqualFold(a, b) <==> SameHex(a, b)
    ensures LowerHex(a) && LowerHex(b) ==> (EqualFold(a, b) <==> a == b)
  {
    if |a| == |b| {
      forall i | 0 <= i < |a|
        ensures Lower(a[i]) == Lower(b[i]) <==> SameHexChar(a[i], b[i])
      {
        FoldedChar(a[i], b[i]);
      }
      if LowerHex(a) && LowerHex(b) {
        assert forall i :: 0 <= i < |a| ==> (SameHexChar(a[i], b[i]) <==> a[i] == b[i]);
        assert SameHex(a, b) <==> a == b;
      }
    }
  }

  lemma FoldedChar(x: char, y: char)
    requires '0' <= x <= '9' || 'a' <= x <= 'f' || 'A' <= x <= 'F'
    requires '0' <= y <= '9' || 'a' <= y <= 'f' || 'A' <= y <= 'F'
    ensures Lower(x) == Lower(y) <==> SameHexChar(x, y)
  {
  }

  /** A push that succeeds had every member by its name, the announced size, and the announced digest. */
  lemma DoneMeans(n: Node, stream: Bytes, ok: bool, size: nat, sha: string, tools: Tools, env: Env, name: string)
    requires n.power.Up? && Push(n, stream, ok, size, sha, tools, env).result.Done?
    requires name == "VERSION" || name == "vmlinuz" || name == "initramfs" || name == "rootfs.sqsh"
    requires HexText(tools.hash(stream)) && HexText(sha)
    ensures var ms := tools.untar(stream, ok).members;
      && ok && tools.untar(stream, ok).clean && First(ms, name).Some?
      && (forall i :: 0 <= i < |ms| ==> |ms[i].body| == ms[i].size)
      && (name == "rootfs.sqsh" ==>
            && First(ms, name).value.size <= |n.ImageOf(n.power.booted.Other()).rootfs|
            && (env.rootfsLimit.Some? ==> |First(ms, name).value.body| <= env.rootfsLimit.value))
      && env.stagingOk && env.slotFound && env.sizeOk && env.kernelStageOk && env.initramfsStageOk
      && env.bootOk && env.grubOk && env.storeOk && n.row.Some?
      && (size == 0 || |stream| % 0x1_0000_0000_0000_0000 == size)
      && SameHex(tools.hash(stream), sha)
      && (LowerHex(tools.hash(stream)) && LowerHex(sha) ==> tools.hash(stream) == sha)
  {
    PushSucceedsIff(n, stream, ok, size, sha, tools, env);
    EqualFoldIff(tools.hash(stream), sha);
    assert name in REQUIRED;
    var ms := tools.untar(stream, ok).members;
    assert Takes(name, First(ms, name).value, Capacity(n), env);
    assert Takes(VMLINUZ, First(ms, VMLINUZ).value, Capacity(n), env);
    assert Takes(INITRAMFS, First(ms, INITRAMFS).value, Capacity(n), env);
    assert Takes(ROOTFS, First(ms, ROOTFS).value, Capacity(n), env);
    assert forall i :: 0 <= i < |ms| ==> Complete(ms[i]);
  }

  /** An archive that unpacks is refused for its size or its digest exactly when that is wrong, the size first. */
  lemma RefusalsAreRight(n: Node, stream: Bytes, size: nat, sha: string, tools: Tools, env: Env)
    requires n.power.Up? && Unpacked(stream, true, Capacity(n), tools, env)
    requires HexText(tools.hash(stream)) && HexText(sha)
    ensures var r := Push(n, stream, true, size, sha, tools, env).result;
      && (r == Failed(SizeMismatch) <==> size != 0 && |stream| % 0x1_0000_0000_0000_0000 != size)
      && (r == Failed(ChecksumMismatch) <==>
          (size == 0 || |stream| % 0x1_0000_0000_0000_0000 == size) && !SameHex(tools.hash(stream), sha))
  {
    var start := Start(n, n.power.booted.Other());
    var ms := tools.untar(stream, true).members;
    EqualFoldIff(tools.hash(stream), sha);
    ScanFindsAllIff(start, ms, tools, env);
    BootPlanShape(n, ScanAll(start, ms, tools, env).0, tools, env);
  }

  /** What stops a push before its checks, in the order in which it can be stopped. */
  lemma EarlyRefusals(n: Node, stream: Bytes, ok: bool, size: nat, sha: string, tools: Tools, env: Env)
    requires n.power.Up?
    ensures var r := Push(n, stream, ok, size, sha, tools, env).result; var tar := tools.untar(stream, ok);
      var readable := AllComplete(tar.members) && FirstsTaken(REQUIRED, tar.members, Capacity(n), env);
      && (r == Failed(StagingFailed) <==> !env.stagingOk)
      && (r == Failed(NoSlotDevice) <==> env.stagingOk && !env.slotFound)
      && (r == Failed(TarBroken) <==> env.stagingOk && env.slotFound && readable && !tar.clean)
      && (r == Failed(StreamBroken) <==> env.stagingOk && env.slotFound && readable && tar.clean && !ok)
  {
    var start := Start(n, n.power.booted.Other());
    var ms := tools.untar(stream, ok).members;
    ScanSucceedsIff(start, ms, tools, env);
    ScanFailures(start, ms, tools, env);
    BootPlanShape(n, ScanAll(start, ms, tools, env).0, tools, env);
  }

  /** A push refused for missing members names exactly the required names that do not occur. */
  lemma MissingAreNamed(n: Node, stream: Bytes, ok: bool, size: nat, sha: string, tools: Tools, env: Env)
    requires n.power.Up? && Push(n, stream, ok, size, sha, tools, env).result.Failed?
    requires Push(n, stream, ok, size, sha, tools, env).result.failure.MissingMembers?
    ensures var names := Push(n, stream, ok, size, sha, tools, env).result.failure.names;
      && names != {}
      && forall name :: name in names <==>
           && name in {"VERSION", "vmlinuz", "initramfs", "rootfs.sqsh"}
           && forall i :: 0 <= i < |tools.untar(stream, ok).members| ==> tools.untar(stream, ok).members[i].name != name
  {
    var start := Start(n, n.power.booted.Other());
    var ms := tools.untar(stream, ok).members;
    ScanFailures(start, ms, tools, env);
    BootPlanShape(n, ScanAll(start, ms, tools, env).0, tools, env);
    ScanKeepsFirsts(start, ms, tools, env);
    forall name
      ensures First(ms, name) == None <==> forall i :: 0 <= i < |ms| ==> ms[i].name != name
    {
      FirstNoneIff(ms, name);
    }
  }

  lemma {:induction false} FirstNoneIff(ms: seq<Member>, name: string)
    ensures First(ms, name) == None <==> forall i :: 0 <= i < |ms| ==> ms[i].name != name
  {
    if ms != [] {
      FirstNoneIff(ms[1..], name);
      assert forall i :: 0 < i < |ms| ==> ms[i] == ms[1..][i - 1];
      if First(ms, name) == None {
        assert forall i :: 0 < i < |ms| ==> ms[i].name == ms[1..][i - 1].name;
      }
    }
  }

  /** A push refused at or before the checksum changes nothing but the inactive root partition. */
  lemma RefusedPushWritesOnlyRootfs(n: Node, stream: Bytes, ok: bool, size: nat, sha: string, tools: Tools, env: Env)
    requires n.power.Up?
    requires var r := Push(n, stream, ok, size, sha, tools, env).result; r.Failed? && r.failure.BeforeBoot()
    ensures var m := Run(n, Push(n, stream, ok, size, sha, tools, env).events);
      var next := n.power.booted.Other();
      && m.grub == n.grub && m.row == n.row && m.power == n.power
      && m.ImageOf(n.power.booted) == n.ImageOf(n.power.booted)
      && m.ImageOf(next) == n.ImageOf(next).(rootfs := m.ImageOf(next).rootfs)
  {
    var es := Push(n, stream, ok, size, sha, tools, env).events;
    if es != [] {
      assert es[1..] == [];
    }
  }

  lemma {:induction false} NoRootfsNoTooLarge(s: Scan, ms: seq<Member>, tools: Tools, env: Env)
    requires s.want <= REQUIRED && ROOTFS !in s.want
    ensures ScanAll(s, ms, tools, env).1 != Some(TooLarge)
    decreases |ms|
  {
    if ms != [] {
      NoRootfsNoTooLarge(OnMember(s, ms[0], tools, env).0, ms[1..], tools, env);
    }
  }

  lemma {:induction false} ScanTooLarge(s: Scan, ms: seq<Member>, tools: Tools, env: Env)
    requires s.want <= REQUIRED && ROOTFS in s.want && !s.dirty && ScanAll(s, ms, tools, env).1 == Some(TooLarge)
    ensures !ScanAll(s, ms, tools, env).0.dirty
    ensures First(ms, ROOTFS).Some? && First(ms, ROOTFS).value.size > |s.rootfs|
    decreases |ms|
  {
    NamesDiffer();
    var (s', f) := OnMember(s, ms[0], tools, env);
    if f.None? {
      if ROOTFS in s'.want {
        ScanTooLarge(s', ms[1..], tools, env);
      } else {
        NoRootfsNoTooLarge(s', ms[1..], tools, env);
        assert false;
      }
    }
  }

  /** A bundle refused as too large really has a root image bigger than the slot, and not one byte was written. */
  lemma TooLargeWritesNothing(n: Node, stream: Bytes, ok: bool, size: nat, sha: string, tools: Tools, env: Env)
    requires n.power.Up? && Push(n, stream, ok, size, sha, tools, env).result == Failed(TooLarge)
    ensures Push(n, stream, ok, size, sha, tools, env).events == []
    ensures var m := First(tools.untar(stream, ok).members, ROOTFS);
      m.Some? && m.value.size > |n.ImageOf(n.power.booted.Other()).rootfs|
  {
    ScanTooLarge(Start(n, n.power.booted.Other()), tools.untar(stream, ok).members, tools, env);
  }

  // ------------------------------------------------------------------
  // Pushes in a good state
  // ------------------------------------------------------------------

  /** Writes, possibly ended by a GRUB flip. */
  predicate WritesThenFlip(es: seq<Event>) {
    && (forall i :: 0 <= i < |es| - 1 ==> es[i].Write?)
    && (es != [] ==> es[|es| - 1].Write? || es[|es| - 1].Activate?)
  }

  /** The flip, if there is one, is judged by the state the push started in. */
  lemma {:induction false} WritesThenFlipSafeIff(n: Node, es: seq<Event>)
    requires n.power.Up? && WritesThenFlip(es)
    ensures SafeRun(n, es) <==> (es != [] && es[|es| - 1].Activate? ==> Safe(n, es[|es| - 1]))
    ensures NoTentativeWrite(n, es) <==> !(n.Tentative() && es != [] && es[0].Write?)
    decreases |es|
  {
    if es != [] {
      assert es[1..] != [] ==> es[1..][|es| - 2] == es[|es| - 1];
      if es[0].Write? {
        WritesThenFlipSafeIff(Step(n, es[0]), es[1..]);
      } else {
        assert es[1..] == [];
      }
    }
  }

  lemma {:induction false} WritesThenFlipTouchIff(n: Node, es: seq<Event>)
    requires n.power.Up? && WritesThenFlip(es)
    ensures NeverTouches(n, es) <==> !(es != [] && TouchesLastGood(n, es[0]))
    decreases |es|
  {
    if es != [] {
      assert es[1..] != [] ==> es[1..][|es| - 2] == es[|es| - 1];
      if es[0].Write? {
        WritesThenFlipTouchIff(Step(n, es[0]), es[1..]);
      } else {
        assert es[1..] == [];
      }
    }
  }

  /** The required members all arrived, so the root image was written. */
  lemma BootPartFollowsWrite(n: Node, stream: Bytes, ok: bool, size: nat, sha: string, tools: Tools, env: Env)
    requires n.power.Up? && env.stagingOk && env.slotFound
    requires var (s, f) := ScanAll(Start(n, n.power.booted.Other()), tools.untar(stream, ok).members, tools, env);
      f == None && s.want == {}
    ensures ScanAll(Start(n, n.power.booted.Other()), tools.untar(stream, ok).members, tools, env).0.dirty
  {
    var s := Start(n, n.power.booted.Other());
    var ms := tools.untar(stream, ok).members;
    ScanKeepsFirsts(s, ms, tools, env);
    assert ROOTFS !in Missing(s.want, ms);
  }

  /** Every push, refused or not, is writes that start with the root image, and then at most the flip. */
  lemma PushShape(n: Node, stream: Bytes, ok: bool, size: nat, sha: string, tools: Tools, env: Env)
    requires n.power.Up?
    ensures var p := Push(n, stream, ok, size, sha, tools, env); var es := p.events;
      && WritesThenFlip(es) && (es != [] ==> es[0].Write?)
      && (es != [] && es[|es| - 1].Activate? ==> es[|es| - 1].storeOk == env.storeOk)
      && (p.result.Done? || p.result == Failed(StoreFailed) <==> es != [] && es[|es| - 1].Activate?)
      && (p.result.Done? ==> env.storeOk && n.row.Some?)
      && (p.result == Failed(StoreFailed) ==> !(env.storeOk && n.row.Some?))
  {
    var next := n.power.booted.Other();
    if env.stagingOk && env.slotFound {
      var (s, f) := ScanAll(Start(n, next), tools.untar(stream, ok).members, tools, env);
      ScanFailures(Start(n, next), tools.untar(stream, ok).members, tools, env);
      BootPlanShape(n, s, tools, env);
      if f == None && s.want == {} {
        BootPartFollowsWrite(n, stream, ok, size, sha, tools, env);
        WriteFirst(Write(Rootfs, s.rootfs), BootPlan(n, s, tools, env).events);
      }
    }
  }

  lemma {:induction false} ScanFailures(s: Scan, ms: seq<Member>, tools: Tools, env: Env)
    ensures var f := ScanAll(s, ms, tools, env).1; f.Some? ==> f.value.MemberFailed? || f.value.TooLarge?
    decreases |ms|
  {
    if ms != [] {
      ScanFailures(OnMember(s, ms[0], tools, env).0, ms[1..], tools, env);
    }
  }

  lemma WriteFirst(w: Event, es: seq<Event>)
    requires w.Write? && WritesThenFlip(es)
    ensures WritesThenFlip([w] + es) && ([w] + es)[|es|] == if es == [] then w else es[|es| - 1]
  {
  }

  lemma BootPlanShape(n: Node, s: Scan, tools: Tools, env: Env)
    requires n.power.Up?
    ensures var p := BootPlan(n, s, tools, env); var es := p.events;
      && WritesThenFlip(es)
      && (es != [] && es[|es| - 1].Activate? ==> es[|es| - 1].storeOk == env.storeOk)
      && (p.result.Done? || p.result == Failed(StoreFailed) <==> es != [] && es[|es| - 1].Activate?)
      && (p.result.Done? ==> env.storeOk && n.row.Some?)
      && (p.result == Failed(StoreFailed) ==> !(env.storeOk && n.row.Some?))
      && (p.result.Failed? ==> p.result.failure == BootFailed || p.result.failure == StoreFailed)
  {
  }

  /** The first member of that name, or the number of members. */
  function FirstIndex(ms: seq<Member>, name: string): (i: nat)
    ensures i <= |ms| && (i < |ms| ==> ms[i].name == name)
    ensures forall j :: 0 <= j < i ==> ms[j].name != name
  {
    if ms == [] || ms[0].name == name then 0 else 1 + FirstIndex(ms[1..], name)
  }

  /** The loop gets through to a root image it can start to write. */
  predicate RootfsReached(want: set<string>, ms: seq<Member>, capacity: nat, env: Env) {
    var i := FirstIndex(ms, ROOTFS);
    && i < |ms| && AllComplete(ms[..i]) && FirstsTaken(want, ms[..i], capacity, env)
    && env.sizeOk && ms[i].size <= capacity
  }

  lemma {:induction false} ScanConcat(s: Scan, a: seq<Member>, b: seq<Member>, tools: Tools, env: Env)
    ensures var (t, f) := ScanAll(s, a, tools, env);
      ScanAll(s, a + b, tools, env) == if f.Some? then (t, f) else ScanAll(t, b, tools, env)
    decreases |a|
  {
    if a == [] {
      assert a + b == b;
    } else {
      assert (a + b)[1..] == a[1..] + b;
      ScanConcat(OnMember(s, a[0], tools, env).0, a[1..], b, tools, env);
    }
  }

  /** Without a root image in sight the device is left alone. */
  lemma {:induction false} ScanBeforeRootfs(s: Scan, a: seq<Member>, tools: Tools, env: Env)
    requires s.want <= REQUIRED && forall j :: 0 <= j < |a| ==> a[j].name != ROOTFS
    ensures var t := ScanAll(s, a, tools, env).0;
      t.want <= REQUIRED && t.dirty == s.dirty && t.rootfs == s.rootfs && (ROOTFS in t.want <==> ROOTFS in s.want)
    decreases |a|
  {
    if a != [] {
      NamesDiffer();
      ScanBeforeRootfs(OnMember(s, a[0], tools, env).0, a[1..], tools, env);
    }
  }

  lemma {:induction false} DirtyStays(s: Scan, ms: seq<Member>, tools: Tools, env: Env)
    requires s.dirty
    ensures ScanAll(s, ms, tools, env).0.dirty
    decreases |ms|
  {
    if ms != [] {
      DirtyStays(OnMember(s, ms[0], tools, env).0, ms[1..], tools, env);
    }
  }

  /** The device is written exactly when the loop reaches a root image it can start to write. */
  lemma DirtyIff(s: Scan, ms: seq<Member>, tools: Tools, env: Env)
    requires s.want <= REQUIRED && ROOTFS in s.want && !s.dirty
    ensures ScanAll(s, ms, tools, env).0.dirty <==> RootfsReached(s.want, ms, |s.rootfs|, env)
  {
    var i := FirstIndex(ms, ROOTFS);
    var a, b := ms[..i], ms[i..];
    assert ms == a + b;
    ScanConcat(s, a, b, tools, env);
    ScanBeforeRootfs(s, a, tools, env);
    ScanSucceedsIff(s, a, tools, env);
    var (t, f) := ScanAll(s, a, tools, env);
    if f == None && i < |ms| {
      NamesDiffer();
      var (u, g) := OnMember(t, b[0], tools, env);
      if u.dirty {
        DirtyStays(u, b[1..], tools, env);
      }
    }
  }

  /** Once the root image has been taken no later member touches the device. */
  lemma {:induction false} ScanAfterRootfs(s: Scan, ms: seq<Member>, tools: Tools, env: Env)
    requires s.want <= REQUIRED && ROOTFS !in s.want
    ensures ScanAll(s, ms, tools, env).0.rootfs == s.rootfs
    decreases |ms|
  {
    if ms != [] {
      NamesDiffer();
      ScanAfterRootfs(OnMember(s, ms[0], tools, env).0, ms[1..], tools, env);
    }
  }

  /** What is then on the device: the first root image from offset 0, as far as the writes went. */
  lemma WrittenImage(s: Scan, ms: seq<Member>, tools: Tools, env: Env)
    requires s.want <= REQUIRED && ROOTFS in s.want && RootfsReached(s.want, ms, |s.rootfs|, env)
    ensures var body := ms[FirstIndex(ms, "rootfs.sqsh")].body;
      var k := if env.rootfsLimit.Some? && env.rootfsLimit.value < |body| then env.rootfsLimit.value else |body|;
      var after := ScanAll(s, ms, tools, env).0.rootfs;
      && |after| == |s.rootfs| && k <= |after|
      && forall j :: 0 <= j < |after| ==> after[j] == if j < k then body[j] else s.rootfs[j]
  {
    var i := FirstIndex(ms, ROOTFS);
    var a, b := ms[..i], ms[i..];
    assert ms == a + b;
    ScanConcat(s, a, b, tools, env);
    ScanBeforeRootfs(s, a, tools, env);
    ScanSucceedsIff(s, a, tools, env);
    NamesDiffer();
    var t := ScanAll(s, a, tools, env).0;
    var (u, g) := OnMember(t, b[0], tools, env);
    assert u.rootfs == Overlay(s.rootfs, Landed(ms[i], env));
    if g == None {
      ScanAfterRootfs(u, b[1..], tools, env);
    }
    assert ScanAll(s, ms, tools, env).0.rootfs == u.rootfs;
  }

  /** In bytes, for every push that writes: a failing device keeps the part that reached it. */
  lemma PushWritesImage(n: Node, stream: Bytes, ok: bool, size: nat, sha: string, tools: Tools, env: Env, j: nat)
    requires n.power.Up? && PushWrites(n, stream, ok, tools, env) && j < Capacity(n)
    ensures var next := n.power.booted.Other(); var ms := tools.untar(stream, ok).members;
      var body := ms[FirstIndex(ms, "rootfs.sqsh")].body;
      var es := Push(n, stream, ok, size, sha, tools, env).events;
      var reached := |body| > j && (env.rootfsLimit.Some? ==> env.rootfsLimit.value > j);
      && es != [] && es[0].Write? && es[0].part == Rootfs && |es[0].data| == Capacity(n)
      && es[0].data[j] == if reached then body[j] else n.ImageOf(next).rootfs[j]
  {
    var start := Start(n, n.power.booted.Other());
    WrittenImage(start, tools.untar(stream, ok).members, tools, env);
    DirtyIff(start, tools.untar(stream, ok).members, tools, env);
  }

  /** The push writes the inactive slot, read off the stream and the environment. */
  predicate PushWrites(n: Node, stream: Bytes, ok: bool, tools: Tools, env: Env)
    requires n.power.Up?
  {
    env.stagingOk && env.slotFound && RootfsReached(REQUIRED, tools.untar(stream, ok).members, Capacity(n), env)
  }

  lemma PushWritesIff(n: Node, stream: Bytes, ok: bool, size: nat, sha: string, tools: Tools, env: Env)
    requires n.power.Up?
    ensures Push(n, stream, ok, size, sha, tools, env).events != [] <==> PushWrites(n, stream, ok, tools, env)
  {
    var start := Start(n, n.power.booted.Other());
    var ms := tools.untar(stream, ok).members;
    DirtyIff(start, ms, tools, env);
    if env.stagingOk && env.slotFound {
      var (s, f) := ScanAll(start, ms, tools, env);
      if f == None && s.want == {} {
        BootPartFollowsWrite(n, stream, ok, size, sha, tools, env);
      }
    }
  }

  /**
   Every push, refused ones included, overwrites the last good slot exactly when it writes at all on
   a tentative boot.
   */
  lemma PushTouchesLastGoodIff(n: Node, stream: Bytes, ok: bool, size: nat, sha: string, tools: Tools, env: Env)
    requires Inv(n) && n.power.Up?
    ensures NeverTouches(n, Push(n, stream, ok, size, sha, tools, env).events) <==>
            !(n.Tentative() && PushWrites(n, stream, ok, tools, env))
  {
    var es := Push(n, stream, ok, size, sha, tools, env).events;
    PushShape(n, stream, ok, size, sha, tools, env);
    PushWritesIff(n, stream, ok, size, sha, tools, env);
    WritesThenFlipTouchIff(n, es);
    if es != [] && n.row.Some? {
      LastGoodTouchedIff(n, es[0]);
    }
  }

  /** Slots in agreement and the last good slot unwritten, at every state. */
  predicate GoodThroughout(n: Node, es: seq<Event>) {
    Always(n, es) && NeverTouches(n, es)
  }

  /** Writes and at most a flip are good exactly when they are none, or off a tentative boot with a safe flip. */
  lemma WritesThenFlipGoodIff(n: Node, es: seq<Event>)
    requires Inv(n) && n.power.Up? && WritesThenFlip(es) && (es != [] ==> es[0].Write?)
    ensures GoodThroughout(n, es) <==>
            es == [] || (!n.Tentative() && (es[|es| - 1].Activate? ==> Safe(n, es[|es| - 1])))
  {
    GoodRunIff(n, es);
    WritesThenFlipSafeIff(n, es);
  }

  /** Off a tentative boot a flip is safe exactly when it is recorded, or an update was in doubt already. */
  lemma FlipSafeIff(n: Node, storeOk: bool, version: string)
    requires Inv(n) && n.power.Up? && !n.Tentative()
    ensures Safe(n, Activate(storeOk, version)) <==> (storeOk && n.row.Some?) || n.InDoubt()
  {
  }

  /**
   Every push, whatever it returns: the slots stay in agreement and the last good slot unwritten
   at every state exactly when it writes nothing, or the boot is not tentative and a flip, if it
   gets that far, is recorded (or an update was in doubt already).
   */
  lemma PushIsGoodIff(n: Node, stream: Bytes, ok: bool, size: nat, sha: string, tools: Tools, env: Env)
    requires Inv(n) && n.power.Up?
    ensures GoodThroughout(n, Push(n, stream, ok, size, sha, tools, env).events) <==>
            || !PushWrites(n, stream, ok, tools, env)
            || (!n.Tentative() && (Flips(n, stream, ok, size, sha, tools, env) ==>
                                     (env.storeOk && n.row.Some?) || n.InDoubt()))
  {
    var es := Push(n, stream, ok, size, sha, tools, env).events;
    PushShape(n, stream, ok, size, sha, tools, env);
    PushWritesIff(n, stream, ok, size, sha, tools, env);
    PushFlipsIff(n, stream, ok, size, sha, tools, env);
    WritesThenFlipGoodIff(n, es);
    if es != [] && es[|es| - 1].Activate? && !n.Tentative() {
      FlipSafeIff(n, env.storeOk, es[|es| - 1].version);
    }
  }

  lemma {:induction false} PowerLossIsGood(n: Node, es: seq<Event>)
    requires Inv(n)
    ensures GoodThroughout(n, es + [PowerLoss]) <==> GoodThroughout(n, es)
    decreases |es|
  {
    var all := es + [PowerLoss];
    if es == [] {
      var m := Step(n, PowerLoss);
      StepSafety(n, PowerLoss);
      assert all[0] == PowerLoss && all[1..] == [];
      assert Always(m, all[1..]) && NeverTouches(m, all[1..]);
    } else {
      assert all[1..] == es[1..] + [PowerLoss];
      StepSafety(n, es[0]);
      var m := Step(n, es[0]);
      if Inv(m) {
        PowerLossIsGood(m, es[1..]);
      } else {
        assert !Always(m, es[1..]) && !Always(m, all[1..]);
      }
    }
  }

  /**
   A push that loses power after its first `k` steps: good exactly when nothing was written yet, or
   the boot is not tentative and it is not a whole push whose flip went unrecorded.
   */
  lemma CutPushIsGoodIff(n: Node, stream: Bytes, ok: bool, size: nat, sha: string, tools: Tools, env: Env, k: nat)
    requires Inv(n) && n.power.Up? && k <= |Push(n, stream, ok, size, sha, tools, env).events|
    ensures var es := Push(n, stream, ok, size, sha, tools, env).events;
      GoodThroughout(n, es[..k] + [PowerLoss]) <==>
      k == 0 || (!n.Tentative() && (k == |es| && Flips(n, stream, ok, size, sha, tools, env) ==>
                                      (env.storeOk && n.row.Some?) || n.InDoubt()))
  {
    var es := Push(n, stream, ok, size, sha, tools, env).events;
    PushShape(n, stream, ok, size, sha, tools, env);
    PushFlipsIff(n, stream, ok, size, sha, tools, env);
    var cut := es[..k];
    PowerLossIsGood(n, cut);
    assert k > 0 ==> cut[0] == es[0] && cut[k - 1] == es[k - 1];
    WritesThenFlipGoodIff(n, cut);
    if k > 0 && cut[k - 1].Activate? && !n.Tentative() {
      FlipSafeIff(n, env.storeOk, cut[k - 1].version);
    }
  }

  /** The push up to its flip, with the power lost before the row is written. */
  function CutAtFlip(es: seq<Event>): seq<Event>
    requires es != [] && es[|es| - 1].Activate?
  {
    es[..|es| - 1] + [Activate(false, es[|es| - 1].version)] + [PowerLoss]
  }

  /** That cut is good exactly when an update was in doubt already and the boot is not tentative. */
  lemma FlipCutIsGoodIff(n: Node, stream: Bytes, ok: bool, size: nat, sha: string, tools: Tools, env: Env)
    requires Inv(n) && n.power.Up? && Flips(n, stream, ok, size, sha, tools, env)
    ensures var es := Push(n, stream, ok, size, sha, tools, env).events;
      && es != [] && es[|es| - 1].Activate?
      && (GoodThroughout(n, CutAtFlip(es)) <==> !n.Tentative() && n.InDoubt())
  {
    var es := Push(n, stream, ok, size, sha, tools, env).events;
    PushShape(n, stream, ok, size, sha, tools, env);
    PushFlipsIff(n, stream, ok, size, sha, tools, env);
    var last := |es| - 1;
    var cut := es[..last] + [Activate(false, es[last].version)];
    assert cut[0] == es[0] && cut[last] == Activate(false, es[last].version);
    PowerLossIsGood(n, cut);
    WritesThenFlipGoodIff(n, cut);
    if !n.Tentative() {
      FlipSafeIff(n, false, es[last].version);
    }
  }

  // ------------------------------------------------------------------
  // A refused push on a tentative boot
  // ------------------------------------------------------------------

  /** An archive that unpacks but whose digest is not the expected one: refused, its root image written. */
  lemma ChecksumRefused(n: Node, stream: Bytes, size: nat, sha: string, tools: Tools, env: Env)
    requires n.power.Up? && Unpacked(stream, true, Capacity(n), tools, env)
    requires SizeMatches(stream, size) && !EqualFold(tools.hash(stream), sha)
    ensures var p := Push(n, stream, true, size, sha, tools, env);
      var image := First(tools.untar(stream, true).members, ROOTFS).value.body;
      && p.result == Failed(ChecksumMismatch)
      && p.events == [Write(Rootfs, Overlay(n.ImageOf(n.power.booted.Other()).rootfs, image))]
  {
    var start := Start(n, n.power.booted.Other());
    var ms := tools.untar(stream, true).members;
    ScanFindsAllIff(start, ms, tools, env);
    ScanKeepsFirsts(start, ms, tools, env);
  }

  /** Time passes, the deadline handler runs, and the node boots again. */
  function RolledBack(n: Node): Node {
    Step(Step(Step(Step(n, Advance(CONFIRM_WINDOW)), TimerRead(true)), TimerAct(true, true)), BOOT)
  }

  /**
   Any bundle that unpacks and is refused at its checksum during a tentative boot: the push reports
   the mismatch, and the automatic rollback then returns to a slot holding its root image.
   */
  lemma RefusedPushDestroysRollbackTarget(n: Node, t: Node, stream: Bytes, size: nat, sha: string, tools: Tools,
      env: Env)
    requires Fresh(n) && n.clock >= 0 && t == Run(n, INTO_TENTATIVE)
    requires Unpacked(stream, true, |n.imageA.rootfs|, tools, env)
    requires SizeMatches(stream, size) && !EqualFold(tools.hash(stream), sha)
    ensures t.power.Up?
    ensures var p := Push(t, stream, true, size, sha, tools, env);
      var m := RolledBack(Run(t, p.events));
      && p.result == Failed(ChecksumMismatch) && Inv(m) && BackOn(m, SlotA)
      && m.imageA.rootfs == Overlay(n.imageA.rootfs, First(tools.untar(stream, true).members, ROOTFS).value.body)
  {
    ReachesTentative(n);
    RefusedThenRolledBack(t, stream, size, sha, tools, env);
  }

  predicate TentativeOnB(w: Node) {
    && w.row == Some(Row(SlotB, Some(SlotB), w.clock + CONFIRM_WINDOW, SlotA, "v1"))
    && w.power == Up(SlotB, Some(w.clock + CONFIRM_WINDOW), None)
  }

  lemma RefusedThenRolledBack(t: Node, stream: Bytes, size: nat, sha: string, tools: Tools, env: Env)
    requires TentativeOnB(t) && Unpacked(stream, true, |t.imageA.rootfs|, tools, env)
    requires SizeMatches(stream, size) && !EqualFold(tools.hash(stream), sha)
    ensures var p := Push(t, stream, true, size, sha, tools, env);
      var m := RolledBack(Run(t, p.events));
      && p.result == Failed(ChecksumMismatch) && Inv(m) && BackOn(m, SlotA)
      && m.imageA.rootfs == Overlay(t.imageA.rootfs, First(tools.untar(stream, true).members, ROOTFS).value.body)
  {
    var e := Write(Rootfs, Overlay(t.imageA.rootfs, First(tools.untar(stream, true).members, ROOTFS).value.body));
    ChecksumRefused(t, stream, size, sha, tools, env);
    RunOne(t, e);
    RollsBackFromB(Step(t, e));
  }

  lemma RollsBackFromB(w: Node)
    requires TentativeOnB(w)
    ensures var m := RolledBack(w); Inv(m) && BackOn(m, SlotA) && m.imageA == w.imageA
  {
  }
}
