/**
 First-boot ingest of the sealed bundle: identity row, operator key, TLS certificate, TLS key,
 removal of the bundle. Each TLS file is created, then filled. The ingest may end after any of
 these steps. If a power cut ended it, the next boot starts it over; if a failed call did, the
 same boot first goes on and makes its own identity and TLS pair where they are missing.
 */
module FirstBoot {
  import opened Prelude

  datatype Identity = Identity(capsuleId: string, shortId: string, createdAt: int, adoptedAt: int, adoptedBy: string)

  datatype Key = Key(pubkey: Bytes, name: string, addedAt: int)

  datatype Bundle = Bundle(capsuleId: string, shortId: string, certPem: string, keyPem: string,
                           operatorPubkey: string, operatorName: string)

  datatype BundleFile = Corrupt(raw: string) | Parsed(bundle: Bundle)

  /** What survives a power cut. */
  datatype Disk = Disk(identity: Option<Identity>, keys: map<string, Key>, cert: Option<string>, key: Option<string>,
                       bundle: Option<BundleFile>, broken: Option<BundleFile>)

  /** Base64 decoding, Ed25519 key validation, key fingerprints and short identifiers. */
  datatype Codec = Codec(decode: string -> Option<Bytes>, valid: Bytes -> bool, kid: Bytes -> string,
                         shortId: string -> string)

  predicate KeyOk(b: Bundle, c: Codec) {
    b.operatorPubkey != "" && c.decode(b.operatorPubkey).Some? && c.valid(c.decode(b.operatorPubkey).value)
  }

  predicate TlsOk(b: Bundle) {
    b.certPem != "" && b.keyPem != ""
  }

  predicate WellFormed(b: Bundle, c: Codec) {
    KeyOk(b, c) && TlsOk(b)
  }

  // ------------------------------------------------------------------
  // The individual writes
  // ------------------------------------------------------------------

  function WithIdentity(d: Disk, b: Bundle, now: int): Disk {
    var id := if d.identity.Some? then d.identity.value else Identity("", "", 0, 0, "");
    var created := if id.createdAt == 0 then now else id.createdAt;
    d.(identity := Some(id.(createdAt := created, capsuleId := b.capsuleId, shortId := b.shortId)))
  }

  function OperatorName(b: Bundle): string {
    if b.operatorName == "" then "operator" else b.operatorName
  }

  /** Enrols the key, or leaves an already enrolled one alone. */
  function WithKey(d: Disk, b: Bundle, now: int, c: Codec): Disk
    requires KeyOk(b, c)
  {
    var pub := c.decode(b.operatorPubkey).value;
    if c.kid(pub) in d.keys then d
    else d.(keys := d.keys[c.kid(pub) := Key(pub, OperatorName(b), now)])
  }

  predicate HasTls(d: Disk) {
    d.cert.Some? && d.key.Some?
  }

  /**
   How a boot ends: in a power cut, or by going on past the ingest. Then it would use
   `capsuleId` for a missing identity and `cert` and `key` for a missing TLS file, and gets
   `files` of the two TLS files written.
   */
  datatype Ending = Halts | GoesOn(capsuleId: string, cert: string, key: string, files: nat)

  /**
   One boot: its clock, how many steps of the ingest get done, how much of a file it had filled
   when it ended inside one, whether a corrupt bundle can be renamed, and how the boot ends.
   Steps: 1 identity, 2 operator key, 3 and 4 certificate created and filled, 5 and 6 TLS key
   created and filled, 7 bundle removed.
   */
  datatype Attempt = Attempt(now: int, steps: nat, filled: nat, renameOk: bool, ending: Ending)

  /** A file whose writing was cut off. */
  function Torn(text: string, filled: nat): string {
    if filled < |text| then text[..filled] else text
  }

  /** The TLS files after the attempt; existing ones are left alone only if both are there. */
  function WithTls(d: Disk, b: Bundle, a: Attempt): Disk {
    if HasTls(d) || a.steps < 3 then d
    else if a.steps == 3 then d.(cert := Some(Torn(b.certPem, a.filled)))
    else
      var certified := d.(cert := Some(b.certPem));
      if a.steps == 4 then certified
      else certified.(key := Some(if a.steps == 5 then Torn(b.keyPem, a.filled) else b.keyPem))
  }

  /** The disk after one attempt. */
  function Ingested(d: Disk, c: Codec, a: Attempt): Disk {
    if d.bundle.None? || a.steps == 0 then d
    else match d.bundle.value
      case Corrupt(_) => if a.renameOk then d.(broken := d.bundle, bundle := None) else d
      case Parsed(b) =>
        var d1 := WithIdentity(d, b, a.now);
        if !KeyOk(b, c) || a.steps == 1 then d1
        else
          var d2 := WithKey(d1, b, a.now, c);
          if !TlsOk(b) then d2
          else
            var d3 := WithTls(d2, b, a);
            if a.steps < 7 then d3 else d3.(bundle := None)
  }

  /** ensureIdentity: a fresh row if there is none, a short identifier if it has none. */
  function WithOwnIdentity(d: Disk, c: Codec, now: int, capsuleId: string): Disk {
    if d.identity.None? then d.(identity := Some(Identity(capsuleId, c.shortId(capsuleId), now, 0, "")))
    else d.(identity := Some(Backfilled(d.identity.value, c)))
  }

  function Backfilled(id: Identity, c: Codec): Identity {
    if id.shortId == "" then id.(shortId := c.shortId(id.capsuleId)) else id
  }

  /** LoadOrGenerate: a fresh pair, certificate first, if either file is missing. */
  function WithOwnTls(d: Disk, cert: string, key: string, files: nat): Disk {
    if HasTls(d) || files == 0 then d
    else if files == 1 then d.(cert := Some(cert))
    else d.(cert := Some(cert), key := Some(key))
  }

  /** The rest of startup, if the boot gets there. */
  function Started(d: Disk, c: Codec, a: Attempt): Disk {
    match a.ending
    case Halts => d
    case GoesOn(capsuleId, cert, key, files) =>
      WithOwnTls(WithOwnIdentity(d, c, a.now, capsuleId), cert, key, files)
  }

  /** The disk after one boot. */
  function Booted(d: Disk, c: Codec, a: Attempt): Disk {
    Started(Ingested(d, c, a), c, a)
  }

  datatype Enrolment = Enrolled | Malformed | EnrolFailed

  datatype Outcome = NoBundle | MovedAside | Completed | Refused | CutOff

  /** The store and the /perm directory, updated write by write. */
  class Perm {
    var identity: Option<Identity>
    var keys: map<string, Key>
    var cert: Option<string>
    var key: Option<string>
    var bundle: Option<BundleFile>
    var broken: Option<BundleFile>

    ghost function View(): Disk
      reads this
    {
      Disk(identity, keys, cert, key, bundle, broken)
    }

    constructor (d: Disk)
      ensures View() == d
    {
      identity, keys, cert, key, bundle, broken := d.identity, d.keys, d.cert, d.key, d.bundle, d.broken;
    }

    method ApplyIdentity(b: Bundle, now: int, storeOk: bool) returns (ok: bool)
      modifies this`identity
      ensures ok == storeOk
      ensures View() == if ok then WithIdentity(old(View()), b, now) else old(View())
    {
      if !storeOk {
        return false;
      }
      var id := if identity.Some? then identity.value else Identity("", "", 0, 0, "");
      if id.createdAt == 0 {
        id := id.(createdAt := now);
      }
      id := id.(capsuleId := b.capsuleId);
      id := id.(shortId := b.shortId);
      identity := Some(id);
      return true;
    }

    method ApplyAuthorizedKey(b: Bundle, now: int, c: Codec, storeOk: bool) returns (r: Enrolment)
      modifies this`keys
      ensures r == Malformed <==> !KeyOk(b, c)
      ensures r == Enrolled <==> KeyOk(b, c) && storeOk
      ensures View() == if r == Enrolled then WithKey(old(View()), b, now, c) else old(View())
    {
      if b.operatorPubkey == "" {
        return Malformed;
      }
      var pub := c.decode(b.operatorPubkey);
      if pub.None? || !c.valid(pub.value) {
        return Malformed;
      }
      if !storeOk {
        return EnrolFailed;
      }
      var kid := c.kid(pub.value);
      if kid !in keys {
        keys := keys[kid := Key(pub.value, OperatorName(b), now)];
      }
      return Enrolled;
    }

    /** writeTLSMaterial. */
    method WriteTls(b: Bundle, a: Attempt) returns (ok: bool)
      requires TlsOk(b) && a.steps >= 2
      modifies this`cert, this`key
      ensures View() == WithTls(old(View()), b, a)
      ensures ok <==> HasTls(old(View())) || a.steps >= 6
    {
      if cert.Some? && key.Some? {
        return true;
      }
      if a.steps < 3 {
        return false;
      }
      cert := Some(Torn(b.certPem, a.filled));
      if a.steps == 3 {
        return false;
      }
      cert := Some(b.certPem);
      if a.steps == 4 {
        return false;
      }
      key := Some(Torn(b.keyPem, a.filled));
      if a.steps == 5 {
        return false;
      }
      key := Some(b.keyPem);
      return true;
    }

    /** A failed unlink is only logged: the ingest is complete, and the bundle is read again at the next boot. */
    method IngestFirstBoot(c: Codec, a: Attempt) returns (r: Outcome)
      modifies this
      ensures View() == Ingested(old(View()), c, a)
      ensures r == NoBundle <==> old(bundle).None?
      ensures r == MovedAside <==> a.steps > 0 && old(bundle).Some? && old(bundle).value.Corrupt?
      ensures a.steps >= 6 && old(bundle).Some? && old(bundle).value.Parsed? ==>
                (r == Completed <==> WellFormed(old(bundle).value.bundle, c)) && (r == Refused <==> r != Completed)
    {
      if bundle.None? {
        return NoBundle;
      }
      if a.steps == 0 {
        return CutOff;
      }
      if bundle.value.Corrupt? {
        if a.renameOk {
          broken := bundle;
          bundle := None;
        }
        return MovedAside;
      }
      var b := bundle.value.bundle;
      var ok := ApplyIdentity(b, a.now, a.steps >= 1);
      if !ok {
        return CutOff;
      }
      var enrolment := ApplyAuthorizedKey(b, a.now, c, a.steps >= 2);
      if enrolment == Malformed {
        return Refused;
      }
      if enrolment == EnrolFailed {
        return CutOff;
      }
      if b.certPem == "" || b.keyPem == "" {
        return Refused;
      }
      ok := WriteTls(b, a);
      if !ok {
        return CutOff;
      }
      if a.steps >= 7 {
        bundle := None;
      }
      return Completed;
    }

    /** ensureIdentity and LoadOrGenerate. */
    method StartUp(c: Codec, a: Attempt)
      modifies this`identity, this`cert, this`key
      ensures View() == Started(old(View()), c, a)
    {
      if a.ending.Halts? {
        return;
      }
      if identity.None? {
        identity := Some(Identity(a.ending.capsuleId, c.shortId(a.ending.capsuleId), a.now, 0, ""));
      } else if identity.value.shortId == "" {
        identity := Some(identity.value.(shortId := c.shortId(identity.value.capsuleId)));
      }
      if cert.None? || key.None? {
        if a.ending.files >= 1 {
          cert := Some(a.ending.cert);
        }
        if a.ending.files >= 2 {
          key := Some(a.ending.key);
        }
      }
    }

    /** One boot: an ingest error is only logged. */
    method Boot(c: Codec, a: Attempt)
      modifies this
      ensures View() == Booted(old(View()), c, a)
    {
      var _ := IngestFirstBoot(c, a);
      StartUp(c, a);
    }
  }

  // ------------------------------------------------------------------
  // Crash-idempotence
  // ------------------------------------------------------------------

  /** Everything but time stamps and columns the ingest does not own. */
  datatype Essence = Essence(ids: Option<(string, string)>, keys: map<string, (Bytes, string)>,
                             cert: Option<string>, key: Option<string>, bundle: Option<BundleFile>)

  function Timeless(keys: map<string, Key>): map<string, (Bytes, string)> {
    map kid | kid in keys :: (keys[kid].pubkey, keys[kid].name)
  }

  function EssenceOf(d: Disk): Essence {
    Essence(if d.identity.Some? then Some((d.identity.value.capsuleId, d.identity.value.shortId)) else None,
            Timeless(d.keys), d.cert, d.key, d.bundle)
  }

  function AfterAttempts(d: Disk, c: Codec, attempts: seq<Attempt>): Disk
    decreases |attempts|
  {
    if attempts == [] then d else AfterAttempts(Booted(d, c, attempts[0]), c, attempts[1..])
  }

  function Complete(now: int): Attempt {
    Attempt(now, 7, 0, true, GoesOn("", "", "", 2))
  }

  /** Any boots, then one in which everything works. */
  function Final(d: Disk, c: Codec, attempts: seq<Attempt>, now: int): Essence {
    EssenceOf(Booted(AfterAttempts(d, c, attempts), c, Complete(now)))
  }

  function EnrolledIn(keys: map<string, (Bytes, string)>, b: Bundle, c: Codec): map<string, (Bytes, string)>
    requires KeyOk(b, c)
  {
    var pub := c.decode(b.operatorPubkey).value;
    if c.kid(pub) in keys then keys else keys[c.kid(pub) := (pub, OperatorName(b))]
  }

  function Sealed(b: Bundle): (Option<string>, Option<string>) {
    (Some(b.certPem), Some(b.keyPem))
  }

  /** The TLS pair a complete ingest ends with. */
  function GoalPair(d: Disk, b: Bundle): (Option<string>, Option<string>) {
    if HasTls(d) then (d.cert, d.key) else Sealed(b)
  }

  function GoalIds(b: Bundle, c: Codec): (string, string) {
    (b.capsuleId, if b.shortId == "" then c.shortId(b.capsuleId) else b.shortId)
  }

  /** Where a boot that ingests a well-formed bundle and starts up ends, whatever its clock. */
  function Goal(d: Disk, b: Bundle, c: Codec): Essence
    requires KeyOk(b, c)
  {
    Essence(Some(GoalIds(b, c)), EnrolledIn(Timeless(d.keys), b, c), GoalPair(d, b).0, GoalPair(d, b).1, None)
  }

  lemma KeyStep(d: Disk, b: Bundle, now: int, c: Codec)
    requires KeyOk(b, c)
    ensures Timeless(WithKey(d, b, now, c).keys) == EnrolledIn(Timeless(d.keys), b, c)
  {
  }

  lemma CompleteReachesGoal(d: Disk, b: Bundle, c: Codec, now: int)
    requires d.bundle == Some(Parsed(b)) && WellFormed(b, c)
    ensures EssenceOf(Booted(d, c, Complete(now))) == Goal(d, b, c)
  {
    KeyStep(WithIdentity(d, b, now), b, now, c);
  }

  /** The ingest itself ends with both TLS files there and not as sealed. */
  predicate CutSpoils(d: Disk, b: Bundle, a: Attempt) {
    || (a.steps == 3 && d.key.Some? && !(a.filled >= |b.certPem| && d.key.value == b.keyPem))
    || (a.steps == 4 && d.key.Some? && d.key.value != b.keyPem)
    || (a.steps == 5 && a.filled < |b.keyPem|)
  }

  /** The ingest ends before it has made a pair. */
  predicate LeavesGap(d: Disk, a: Attempt) {
    a.steps < 3 || (a.steps < 5 && d.key.None?)
  }

  /** The boot goes on over that gap and completes a pair that is not the sealed one. */
  predicate StartupSpoils(d: Disk, b: Bundle, a: Attempt) {
    && LeavesGap(d, a) && a.ending.GoesOn?
    && (|| (a.ending.files >= 2 && (a.ending.cert, a.ending.key) != (b.certPem, b.keyPem))
        || (a.ending.files == 1 && d.key.Some? && (a.ending.cert, d.key.value) != (b.certPem, b.keyPem)))
  }

  /**
   The boot ends with both TLS files there and not as sealed, so that no later one repairs them:
   cut off inside the key file, or with a stray key beside the certificate it wrote, or by
   generating its own pair after a failed call.
   */
  predicate Spoils(d: Disk, b: Bundle, a: Attempt) {
    !HasTls(d) && (CutSpoils(d, b, a) || StartupSpoils(d, b, a))
  }

  lemma TornIsWhole(text: string, filled: nat)
    ensures Torn(text, filled) == text <==> filled >= |text|
  {
  }

  /** What the ingest alone does to the pair. */
  lemma IngestMovesPairIff(d: Disk, b: Bundle, a: Attempt)
    requires TlsOk(b) && !HasTls(d)
    ensures var e := WithTls(d, b, a);
      && (HasTls(e) <==> !LeavesGap(d, a))
      && (HasTls(e) ==> ((e.cert, e.key) != Sealed(b) <==> CutSpoils(d, b, a)))
      && (!HasTls(e) ==> !CutSpoils(d, b, a) && e.key == d.key)
  {
    TornIsWhole(b.certPem, a.filled);
    TornIsWhole(b.keyPem, a.filled);
  }

  /** What the rest of startup then does to it. */
  lemma StartupMovesPairIff(e: Disk, b: Bundle, a: Attempt)
    requires !HasTls(e) && a.ending.GoesOn?
    ensures var s := WithOwnTls(e, a.ending.cert, a.ending.key, a.ending.files); var g := a.ending;
      && (HasTls(s) && (s.cert, s.key) != Sealed(b) <==>
          || (g.files >= 2 && (g.cert, g.key) != (b.certPem, b.keyPem))
          || (g.files == 1 && e.key.Some? && (g.cert, e.key.value) != (b.certPem, b.keyPem)))
  {
  }

  /** The pair after one boot of a well-formed bundle. */
  lemma BootMovesPairIff(d: Disk, b: Bundle, c: Codec, a: Attempt)
    requires d.bundle == Some(Parsed(b)) && WellFormed(b, c)
    ensures var e := Booted(d, c, a);
      && (GoalPair(e, b) == GoalPair(d, b) <==> !Spoils(d, b, a))
      && (Spoils(d, b, a) ==> HasTls(e) && (e.cert, e.key) != Sealed(b))
  {
    if HasTls(d) {
      PairStays(d, b, c, a);
    } else {
      var i := Ingested(d, c, a);
      IngestPair(d, b, c, a);
      IngestMovesPairIff(d, b, a);
      if !HasTls(i) && a.ending.GoesOn? {
        StartupMovesPairIff(i, b, a);
      }
      StartedPair(i, c, a);
    }
  }

  lemma IngestPair(d: Disk, b: Bundle, c: Codec, a: Attempt)
    requires d.bundle == Some(Parsed(b)) && WellFormed(b, c)
    ensures var i, t := Ingested(d, c, a), WithTls(d, b, a); i.cert == t.cert && i.key == t.key
  {
  }

  lemma StartedPair(i: Disk, c: Codec, a: Attempt)
    ensures var s := Started(i, c, a);
      if a.ending.Halts? || HasTls(i) then s.cert == i.cert && s.key == i.key
      else var t := WithOwnTls(i, a.ending.cert, a.ending.key, a.ending.files); s.cert == t.cert && s.key == t.key
  {
  }

  lemma PairStays(d: Disk, b: Bundle, c: Codec, a: Attempt)
    requires HasTls(d)
    ensures Booted(d, c, a).cert == d.cert && Booted(d, c, a).key == d.key
  {
  }

  /** What the ingest of a parsed bundle does to the operator keys. */
  lemma IngestKeys(d: Disk, b: Bundle, c: Codec, a: Attempt)
    requires d.bundle == Some(Parsed(b))
    ensures Ingested(d, c, a).keys == if KeyOk(b, c) && a.steps >= 2 then WithKey(d, b, a.now, c).keys else d.keys
  {
  }

  /** Startup touches neither keys nor bundles, and keeps an identity it finds. */
  lemma StartKeeps(d: Disk, c: Codec, a: Attempt)
    ensures var s := Started(d, c, a); s.keys == d.keys && s.bundle == d.bundle && s.broken == d.broken
    ensures d.identity.Some? ==>
      var id, now := d.identity.value, Started(d, c, a).identity;
      now.Some? && now.value.(shortId := id.shortId) == id
  {
  }

  lemma IngestKeepsIdentity(d: Disk, c: Codec, a: Attempt)
    requires d.identity.Some? && d.identity.value.createdAt != 0
    ensures var id, now := d.identity.value, Ingested(d, c, a).identity;
      now.Some? && now.value.(capsuleId := id.capsuleId, shortId := id.shortId) == id
  {
  }

  /** Everything but the pair: a boot that leaves the bundle there leaves the goal there. */
  lemma BootKeepsRest(d: Disk, b: Bundle, c: Codec, a: Attempt)
    requires d.bundle == Some(Parsed(b)) && WellFormed(b, c) && a.steps < 7
    ensures var e := Booted(d, c, a);
      e.bundle == d.bundle && EnrolledIn(Timeless(e.keys), b, c) == EnrolledIn(Timeless(d.keys), b, c)
  {
    IngestKeys(d, b, c, a);
    StartKeeps(Ingested(d, c, a), c, a);
    KeyStep(d, b, a.now, c);
  }

  /** A boot that does not finish the ingest moves the goal exactly when it spoils the pair. */
  lemma BootMovesGoalIff(d: Disk, b: Bundle, c: Codec, a: Attempt)
    requires d.bundle == Some(Parsed(b)) && WellFormed(b, c) && a.steps < 7
    ensures var e := Booted(d, c, a);
      && e.bundle == d.bundle && (Goal(e, b, c) == Goal(d, b, c) <==> !Spoils(d, b, a))
      && (Spoils(d, b, a) ==> HasTls(e) && (e.cert, e.key) != Sealed(b))
  {
    BootKeepsRest(d, b, c, a);
    BootMovesPairIff(d, b, c, a);
  }

  /** Some boot of the schedule, while the bundle is still there, spoils the pair. */
  predicate SpoiledBy(d: Disk, b: Bundle, c: Codec, attempts: seq<Attempt>)
    decreases |attempts|
  {
    && attempts != [] && d.bundle.Some?
    && (Spoils(d, b, attempts[0]) || SpoiledBy(Booted(d, c, attempts[0]), b, c, attempts[1..]))
  }

  /** Once both files are there, no boot changes them. */
  lemma {:induction false} PairIsFinal(d: Disk, b: Bundle, c: Codec, attempts: seq<Attempt>, now: int)
    requires HasTls(d)
    ensures Final(d, c, attempts, now).cert == d.cert && Final(d, c, attempts, now).key == d.key
    decreases |attempts|
  {
    if attempts == [] {
      PairStays(d, b, c, Complete(now));
    } else {
      PairStays(d, b, c, attempts[0]);
      PairIsFinal(Booted(d, c, attempts[0]), b, c, attempts[1..], now);
    }
  }

  /** A disk that has everything and no bundle: boots only fill in the short identifier. */
  lemma {:induction false} DoneIsFinal(d: Disk, c: Codec, attempts: seq<Attempt>, now: int)
    requires d.bundle.None? && HasTls(d) && d.identity.Some?
    ensures Final(d, c, attempts, now) == EssenceOf(WithOwnIdentity(d, c, now, ""))
    decreases |attempts|
  {
    if attempts != [] {
      var e := Booted(d, c, attempts[0]);
      DoneIsFinal(e, c, attempts[1..], now);
      assert WithOwnIdentity(e, c, now, "") == WithOwnIdentity(d, c, now, "");
    }
  }

  lemma FinishedReachesGoal(d: Disk, b: Bundle, c: Codec, a: Attempt, now: int)
    requires d.bundle == Some(Parsed(b)) && WellFormed(b, c) && a.steps >= 7
    ensures var e := Booted(d, c, a);
      && e.bundle.None? && HasTls(e) && e.identity.Some?
      && EssenceOf(WithOwnIdentity(e, c, now, "")) == Goal(d, b, c)
  {
    KeyStep(WithIdentity(d, b, a.now), b, a.now, c);
  }

  /**
   For a well-formed bundle and any schedule of boots, however many, wherever their ingest ends
   and however they go on, followed by one in which everything works: the outcome is that of one
   uninterrupted boot exactly when no boot spoils the TLS pair.
   */
  lemma {:induction false} ScheduleIff(d: Disk, b: Bundle, c: Codec, attempts: seq<Attempt>, now: int, now': int)
    requires d.bundle == Some(Parsed(b)) && WellFormed(b, c)
    ensures Final(d, c, attempts, now) == Final(d, c, [], now') <==> !SpoiledBy(d, b, c, attempts)
    decreases |attempts|
  {
    CompleteReachesGoal(d, b, c, now');
    if attempts == [] {
      CompleteReachesGoal(d, b, c, now);
    } else {
      var a := attempts[0];
      var e := Booted(d, c, a);
      if a.steps >= 7 {
        FinishedReachesGoal(d, b, c, a, now);
        DoneIsFinal(e, c, attempts[1..], now);
      } else {
        BootMovesGoalIff(d, b, c, a);
        CompleteReachesGoal(e, b, c, now);
        if Spoils(d, b, a) {
          PairIsFinal(e, b, c, attempts[1..], now);
        } else {
          ScheduleIff(e, b, c, attempts[1..], now, now);
        }
      }
    }
  }

  /** Every schedule gives the uninterrupted outcome exactly when the disk came with both TLS files. */
  lemma EveryScheduleIff(d: Disk, b: Bundle, c: Codec)
    requires d.bundle == Some(Parsed(b)) && WellFormed(b, c)
    ensures (forall attempts, now, now' :: Final(d, c, attempts, now) == Final(d, c, [], now')) <==> HasTls(d)
  {
    if HasTls(d) {
      forall attempts: seq<Attempt>, now: int, now': int
        ensures Final(d, c, attempts, now) == Final(d, c, [], now')
      {
        PresentPairIsSafe(d, b, c, attempts);
        ScheduleIff(d, b, c, attempts, now, now');
      }
    } else {
      var cut := [Attempt(0, 5, 0, true, Halts)];
      assert Spoils(d, b, cut[0]);
      ScheduleIff(d, b, c, cut, 0, 0);
    }
  }

  lemma {:induction false} PresentPairIsSafe(d: Disk, b: Bundle, c: Codec, attempts: seq<Attempt>)
    requires HasTls(d)
    ensures !SpoiledBy(d, b, c, attempts)
    decreases |attempts|
  {
    if attempts != [] && d.bundle.Some? {
      PairStays(d, b, c, attempts[0]);
      PresentPairIsSafe(Booted(d, c, attempts[0]), b, c, attempts[1..]);
    }
  }

  /** A power cut inside the key file leaves a key that no later boot replaces. */
  lemma TornKeyIsKept(d: Disk, b: Bundle, c: Codec, filled: nat, attempts: seq<Attempt>, now: int)
    requires d.bundle == Some(Parsed(b)) && WellFormed(b, c) && !HasTls(d) && filled < |b.keyPem|
    ensures Final(d, c, [Attempt(now, 5, filled, true, Halts)] + attempts, now).key == Some(b.keyPem[..filled])
  {
    var all := [Attempt(now, 5, filled, true, Halts)] + attempts;
    assert all[1..] == attempts;
    PairIsFinal(Booted(d, c, all[0]), b, c, attempts, now);
  }

  /** One failed store call before the TLS files: the boot generates its own pair, and the sealed one is never used. */
  lemma FailedCallLosesSealedPair(d: Disk, b: Bundle, c: Codec, own: Ending, attempts: seq<Attempt>, now: int)
    requires d.bundle == Some(Parsed(b)) && WellFormed(b, c) && !HasTls(d) && own.GoesOn? && own.files >= 2
    ensures var f := Final(d, c, [Attempt(now, 0, 0, true, own)] + attempts, now);
      f.cert == Some(own.cert) && f.key == Some(own.key)
  {
    var all := [Attempt(now, 0, 0, true, own)] + attempts;
    assert all[1..] == attempts;
    PairIsFinal(Booted(d, c, all[0]), b, c, attempts, now);
  }

  // ------------------------------------------------------------------
  // Power cuts between whole writes
  // ------------------------------------------------------------------

  /** No boot ends inside a file, and none goes on over an ingest that stopped before its end. */
  predicate CleanCuts(attempts: seq<Attempt>) {
    forall i :: 0 <= i < |attempts| ==> CleanCut(attempts[i])
  }

  predicate CleanCut(a: Attempt) {
    a.steps != 3 && a.steps != 5 && (a.ending.Halts? || a.steps >= 6)
  }

  /** No private key lies there without a certificate, unless it is the bundle's. */
  predicate NoStrayKey(d: Disk, b: Bundle) {
    d.cert.None? && d.key.Some? ==> d.key.value == b.keyPem
  }

  lemma CleanCutIsSafe(d: Disk, b: Bundle, c: Codec, a: Attempt)
    requires d.bundle == Some(Parsed(b)) && WellFormed(b, c) && NoStrayKey(d, b) && CleanCut(a)
    ensures !Spoils(d, b, a) && NoStrayKey(Booted(d, c, a), b)
    ensures Booted(d, c, a).bundle == d.bundle || Booted(d, c, a).bundle.None?
  {
    IngestPair(d, b, c, a);
    StartedPair(Ingested(d, c, a), c, a);
  }

  lemma {:induction false} CleanCutsAreSafe(d: Disk, b: Bundle, c: Codec, attempts: seq<Attempt>)
    requires (d.bundle == Some(Parsed(b)) && WellFormed(b, c) && NoStrayKey(d, b)) || d.bundle.None?
    requires CleanCuts(attempts)
    ensures !SpoiledBy(d, b, c, attempts)
    decreases |attempts|
  {
    if attempts != [] && d.bundle.Some? {
      assert CleanCut(attempts[0]);
      CleanCutIsSafe(d, b, c, attempts[0]);
      CleanCutsAreSafe(Booted(d, c, attempts[0]), b, c, attempts[1..]);
    }
  }

  /**
   If only power cuts end an ingest, and only between whole writes: every schedule gives the
   uninterrupted outcome exactly when no stray private key was there to begin with.
   */
  lemma CrashIdempotentIff(d: Disk, c: Codec, b: Bundle)
    requires d.bundle == Some(Parsed(b)) && WellFormed(b, c)
    ensures (forall attempts, now, now' :: CleanCuts(attempts) ==> Final(d, c, attempts, now) == Final(d, c, [], now'))
            <==> NoStrayKey(d, b)
  {
    if NoStrayKey(d, b) {
      forall attempts: seq<Attempt>, now: int, now': int | CleanCuts(attempts)
        ensures Final(d, c, attempts, now) == Final(d, c, [], now')
      {
        CleanCutsAreSafe(d, b, c, attempts);
        ScheduleIff(d, b, c, attempts, now, now');
      }
    } else {
      var cut := [Attempt(0, 4, 0, true, Halts)];
      assert Spoils(d, b, cut[0]) && CleanCuts(cut);
      ScheduleIff(d, b, c, cut, 0, 0);
    }
  }

  /**
   On a fresh disk an unspoiled schedule ends with exactly the sealed identity, one operator key and
   the sealed pair.
   */
  lemma FreshIngest(d: Disk, c: Codec, b: Bundle, attempts: seq<Attempt>, now: int)
    requires d.bundle == Some(Parsed(b)) && WellFormed(b, c)
    requires d.keys == map[] && d.cert.None? && d.key.None? && !SpoiledBy(d, b, c, attempts)
    ensures var pub := c.decode(b.operatorPubkey).value;
      Final(d, c, attempts, now) ==
      Essence(Some((b.capsuleId, if b.shortId == "" then c.shortId(b.capsuleId) else b.shortId)),
              map[c.kid(pub) := (pub, if b.operatorName == "" then "operator" else b.operatorName)],
              Some(b.certPem), Some(b.keyPem), None)
  {
    ScheduleIff(d, b, c, attempts, now, now);
    CompleteReachesGoal(d, b, c, now);
    assert Timeless(d.keys) == map[];
  }

  predicate AllHalt(attempts: seq<Attempt>) {
    forall i :: 0 <= i < |attempts| ==> attempts[i].ending.Halts?
  }

  /**
   A bundle that is not well-formed is never removed, however often it is tried, and its own TLS
   pair is never used: files that are there stay, and only startup fills in missing ones.
   */
  lemma {:induction false} RefusedBundleStays(d: Disk, c: Codec, b: Bundle, attempts: seq<Attempt>)
    requires d.bundle == Some(Parsed(b)) && !WellFormed(b, c)
    ensures var e := AfterAttempts(d, c, attempts);
      && e.bundle == d.bundle && e.broken == d.broken
      && (HasTls(d) || AllHalt(attempts) ==> e.cert == d.cert && e.key == d.key)
    decreases |attempts|
  {
    if attempts != [] {
      assert AllHalt(attempts) ==> attempts[0].ending.Halts? && AllHalt(attempts[1..]);
      RefusedBundleStays(Booted(d, c, attempts[0]), c, b, attempts[1..]);
    }
  }

  /** Why a bundle can be refused, in its own terms. */
  predicate BadKey(b: Bundle, c: Codec) {
    var pub := c.decode(b.operatorPubkey);
    b.operatorPubkey == "" || pub == None || !c.valid(pub.value)
  }

  predicate NoTlsInBundle(b: Bundle) {
    |b.certPem| == 0 || |b.keyPem| == 0
  }

  /**
   A bad key is never enrolled, a bundle without TLS material never removed, and a bundle with
   neither fault is well-formed.
   */
  lemma {:induction false} BadBundleIsRefused(d: Disk, c: Codec, b: Bundle, attempts: seq<Attempt>)
    requires d.bundle == Some(Parsed(b))
    ensures WellFormed(b, c) <==> !BadKey(b, c) && !NoTlsInBundle(b)
    ensures BadKey(b, c) ==> AfterAttempts(d, c, attempts).keys == d.keys
    ensures BadKey(b, c) || NoTlsInBundle(b) ==> AfterAttempts(d, c, attempts).bundle == d.bundle
    decreases |attempts|
  {
    if attempts != [] && (BadKey(b, c) || NoTlsInBundle(b)) {
      BadBundleIsRefused(Booted(d, c, attempts[0]), c, b, attempts[1..]);
    }
  }

  /** A key, once enrolled, keeps its bytes, name and time through every later boot. */
  lemma {:induction false} EnrolledOnce(d: Disk, c: Codec, kid: string, attempts: seq<Attempt>)
    requires kid in d.keys
    ensures kid in AfterAttempts(d, c, attempts).keys && AfterAttempts(d, c, attempts).keys[kid] == d.keys[kid]
    decreases |attempts|
  {
    if attempts != [] {
      BootKeepsKey(d, c, kid, attempts[0]);
      EnrolledOnce(Booted(d, c, attempts[0]), c, kid, attempts[1..]);
    }
  }

  lemma BootKeepsKey(d: Disk, c: Codec, kid: string, a: Attempt)
    requires kid in d.keys
    ensures kid in Booted(d, c, a).keys && Booted(d, c, a).keys[kid] == d.keys[kid]
  {
    StartKeeps(Ingested(d, c, a), c, a);
    if d.bundle.Some? && d.bundle.value.Parsed? {
      IngestKeys(d, d.bundle.value.bundle, c, a);
    }
  }

  /** Without a bundle the first boot that starts up names the capsule, and every later one keeps that name. */
  lemma OwnIdentityIsKept(d: Disk, c: Codec, a: Attempt, attempts: seq<Attempt>)
    requires d.bundle.None? && d.identity.None? && a.ending.GoesOn?
    ensures EssenceOf(AfterAttempts(Booted(d, c, a), c, attempts)).ids
         == Some((a.ending.capsuleId, c.shortId(a.ending.capsuleId)))
  {
    NamedStays(Booted(d, c, a), c, attempts);
  }

  lemma {:induction false} NamedStays(d: Disk, c: Codec, attempts: seq<Attempt>)
    requires d.bundle.None? && d.identity.Some? && (d.identity.value.shortId == "" ==>
        c.shortId(d.identity.value.capsuleId) == "")
    ensures EssenceOf(AfterAttempts(d, c, attempts)).ids == EssenceOf(d).ids
    decreases |attempts|
  {
    if attempts != [] {
      NamedStays(Booted(d, c, attempts[0]), c, attempts[1..]);
    }
  }

  /** The boot that enrols a new operator records its own time. */
  lemma EnrolmentIsStamped(d: Disk, c: Codec, b: Bundle, a: Attempt)
    requires d.bundle == Some(Parsed(b)) && WellFormed(b, c) && a.steps >= 2
    requires c.kid(c.decode(b.operatorPubkey).value) !in d.keys
    ensures var pub := c.decode(b.operatorPubkey).value; var e := Booted(d, c, a);
      && c.kid(pub) in e.keys && e.keys[c.kid(pub)].addedAt == a.now && e.keys[c.kid(pub)].pubkey == pub
      && e.identity.Some? && e.identity.value.capsuleId == b.capsuleId
      && (d.identity == None ==> e.identity.value.createdAt == a.now)
  {
  }

  /**
   A corrupt bundle is kept under its new name if it can be renamed, and is otherwise left; the
   ingest changes nothing else.
   */
  lemma CorruptBundleIsKept(d: Disk, c: Codec, a: Attempt)
    requires d.bundle.Some? && d.bundle.value.Corrupt? && a.steps > 0
    ensures var i, e := Ingested(d, c, a), Booted(d, c, a);
      && (a.renameOk ==> i.broken == d.bundle && i.bundle == None)
      && (!a.renameOk ==> i.broken == d.broken && i.bundle == d.bundle)
      && i.identity == d.identity && i.keys == d.keys && i.cert == d.cert && i.key == d.key
      && e.broken == i.broken && e.bundle == i.bundle && e.keys == d.keys
  {
  }

  /** The creation stamp, once set, and who adopted the capsule are never moved by a later boot. */
  lemma {:induction false} CreatedOnce(d: Disk, c: Codec, attempts: seq<Attempt>)
    requires d.identity.Some? && d.identity.value.createdAt != 0
    ensures var e := AfterAttempts(d, c, attempts); var id := d.identity.value;
      && e.identity.Some? && e.identity.value.createdAt == id.createdAt
      && e.identity.value.adoptedAt == id.adoptedAt && e.identity.value.adoptedBy == id.adoptedBy
    decreases |attempts|
  {
    if attempts != [] {
      BootKeepsIdentity(d, c, attempts[0]);
      CreatedOnce(Booted(d, c, attempts[0]), c, attempts[1..]);
    }
  }

  lemma BootKeepsIdentity(d: Disk, c: Codec, a: Attempt)
    requires d.identity.Some? && d.identity.value.createdAt != 0
    ensures var e := Booted(d, c, a); var id := d.identity.value;
      && e.identity.Some? && e.identity.value.createdAt == id.createdAt
      && e.identity.value.adoptedAt == id.adoptedAt && e.identity.value.adoptedBy == id.adoptedBy
  {
    IngestKeepsIdentity(d, c, a);
    StartKeeps(Ingested(d, c, a), c, a);
  }
}
