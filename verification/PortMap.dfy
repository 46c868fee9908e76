/**
 Port mappings on a container label: `host:container/proto`, comma-separated. CNI teardown
 must replay exactly the mappings CNI setup was given, rebuilt from the label alone.
 */
module PortMap {
  import opened Prelude
  import opened Text

  datatype Port = Port(host: Uint32, container: Uint32, protocol: string)

  /** go-cni's mapping: ports are signed 32-bit. */
  datatype Mapping = Mapping(host: int, container: int, protocol: string)

  /** The int32 conversion: wrap around modulo 2^32. */
  function Int32(x: int): (r: int)
    ensures -0x8000_0000 <= r < 0x8000_0000
  {
    var m := x % 0x1_0000_0000;
    if m >= 0x8000_0000 then m - 0x1_0000_0000 else m
  }

  predicate IsInt32(x: int) {
    -0x8000_0000 <= x < 0x8000_0000
  }

  // ------------------------------------------------------------------
  // Decimal integers
  // ------------------------------------------------------------------

  /** The %d verb. */
  function Itoa(n: int): string {
    if n < 0 then "-" + NatText(-n) else NatText(n)
  }

  function DigitValue(c: char): Option<nat> {
    if '0' <= c <= '9' then Some(c as int - '0' as int) else None
  }

  function ParseNat(s: string): Option<nat> {
    if s == [] then None
    else match (DigitValue(s[|s| - 1]), ParseNat(s[..|s| - 1]))
      case (Some(d), Some(high)) => Some(10 * high + d)
      case (Some(d), None) => if |s| == 1 then Some(d) else None
      case _ => None
  }

  /** strconv.Atoi with a 64-bit int: optional sign, decimal digits, in range. */
  function Atoi(s: string): Option<int> {
    var signed := s != [] && (s[0] == '-' || s[0] == '+');
    match ParseNat(if signed then s[1..] else s)
    case None => None
    case Some(v) =>
      var n := if signed && s[0] == '-' then 0 - v as int else v as int;
      if -0x8000_0000_0000_0000 <= n < 0x8000_0000_0000_0000 then Some(n) else None
  }

  lemma DigitsAre(d: nat)
    requires d < 10
    ensures DigitValue(DIGITS[d]) == Some(d)
  {
  }

  lemma {:induction false} NatTextParses(n: nat)
    ensures NatText(n) != [] && ParseNat(NatText(n)) == Some(n)
    ensures forall i :: 0 <= i < |NatText(n)| ==> DigitValue(NatText(n)[i]).Some?
  {
    DigitsAre(n % 10);
    if n < 10 {
      assert ParseNat([]) == None;
    } else {
      NatTextParses(n / 10);
      var s := NatText(n);
      assert s[..|s| - 1] == NatText(n / 10);
    }
  }

  lemma AtoiOf(t: string, v: nat, minus: bool)
    requires ParseNat(t) == Some(v) && t != [] && DigitValue(t[0]).Some? && v <= 0x8000_0000
    ensures Atoi(if minus then "-" + t else t) == Some(if minus then -(v as int) else v)
  {
    if minus {
      assert ("-" + t)[1..] == t;
    }
  }

  lemma ItoaParses(n: int)
    requires IsInt32(n)
    ensures Atoi(Itoa(n)) == Some(n)
  {
    var v := if n < 0 then -n else n;
    NatTextParses(v);
    assert DigitValue(NatText(v)[0]).Some?;
    AtoiOf(NatText(v), v, n < 0);
  }

  predicate NumberChar(c: char) {
    c == '-' || '0' <= c <= '9'
  }

  /** An integer's text holds only digits and a minus. */
  lemma ItoaText(n: int)
    ensures Itoa(n) != [] && forall i :: 0 <= i < |Itoa(n)| ==> NumberChar(Itoa(n)[i])
  {
    var t := NatText(if n < 0 then -n else n);
    NatTextParses(if n < 0 then -n else n);
    assert forall i :: 0 <= i < |t| ==> DigitValue(t[i]).Some?;
  }

  // ------------------------------------------------------------------
  // Conversion, encoding, decoding
  // ------------------------------------------------------------------

  function Lowered(s: string, lower: char -> char): string {
    seq(|s|, i requires 0 <= i < |s| => lower(s[i]))
  }

  function ToMapping(p: Port, lower: char -> char): (m: Mapping)
    ensures IsInt32(m.host) && IsInt32(m.container) && m.protocol != []
  {
    var proto := Lowered(p.protocol, lower);
    Mapping(Int32(p.host), Int32(p.container), if proto == [] then "tcp" else proto)
  }

  /** What CNI setup is given. `lower` lower-cases one character. */
  function ToMappings(ports: seq<Port>, lower: char -> char): seq<Mapping> {
    seq(|ports|, i requires 0 <= i < |ports| => ToMapping(ports[i], lower))
  }

  function PortsText(m: Mapping): string {
    Itoa(m.host) + [':'] + Itoa(m.container)
  }

  function EncodeOne(m: Mapping): string {
    PortsText(m) + ['/'] + m.protocol
  }

  function EncodeAll(ms: seq<Mapping>): seq<string> {
    seq(|ms|, i requires 0 <= i < |ms| => EncodeOne(ms[i]))
  }

  /** The label text. */
  function Encode(ms: seq<Mapping>): string {
    Join(EncodeAll(ms), ',')
  }

  function DecodeOne(e: string): Option<Mapping> {
    match Cut(e, '/')
    case None => None
    case Some((ports, proto)) =>
      match Cut(ports, ':')
      case None => None
      case Some((host, container)) =>
        match (Atoi(host), Atoi(container))
        case (Some(h), Some(c)) => Some(Mapping(Int32(h), Int32(c), proto))
        case _ => None
  }

  /** Malformed entries are skipped. */
  function DecodeAll(es: seq<string>): seq<Mapping> {
    if es == [] then []
    else (match DecodeOne(es[0]) case None => [] case Some(m) => [m]) + DecodeAll(es[1..])
  }

  function Decode(text: string): seq<Mapping> {
    var t := TrimSpace(text);
    if t == [] then [] else DecodeAll(Split(t, ','))
  }

  lemma {:induction false} DecodeAllConcat(a: seq<string>, b: seq<string>)
    ensures DecodeAll(a + b) == DecodeAll(a) + DecodeAll(b)
  {
    if a == [] {
      assert a + b == b;
    } else {
      assert (a + b)[1..] == a[1..] + b;
      DecodeAllConcat(a[1..], b);
      assert (a + b)[0] == a[0];
    }
  }

  /** A port number as a signed 32-bit one: itself below 2^31, otherwise the same modulo 2^32. */
  predicate SamePort(port: int, mapped: int) {
    && -0x8000_0000 <= mapped < 0x8000_0000
    && (port < 0x8000_0000 ==> mapped == port)
    && (port >= 0x8000_0000 ==> mapped == port - 0x1_0000_0000)
  }

  /** The mapping publishes that host port on that container port, for that protocol or TCP. */
  predicate Publishes(p: Port, m: Mapping, lower: char -> char) {
    && SamePort(p.host, m.host) && SamePort(p.container, m.container)
    && (p.protocol == "" ==> m.protocol == "tcp")
    && (p.protocol != "" ==>
          && |m.protocol| == |p.protocol|
          && forall k :: 0 <= k < |p.protocol| ==> m.protocol[k] == lower(p.protocol[k]))
  }

  lemma MappingPublishes(p: Port, lower: char -> char)
    ensures Publishes(p, ToMapping(p, lower), lower)
  {
  }

  method GocniPortMappings(ports: seq<Port>, lower: char -> char) returns (out: seq<Mapping>)
    ensures out == ToMappings(ports, lower)
    ensures |out| == |ports| && forall i :: 0 <= i < |ports| ==> Publishes(ports[i], out[i], lower)
  {
    forall i | 0 <= i < |ports|
      ensures Publishes(ports[i], ToMapping(ports[i], lower), lower)
    {
      MappingPublishes(ports[i], lower);
    }
    out := [];
    for i := 0 to |ports|
      invariant |out| == i
      invariant forall j :: 0 <= j < i ==> out[j] == ToMapping(ports[j], lower)
    {
      var proto := Lowered(ports[i].protocol, lower);
      if proto == "" {
        proto := "tcp";
      }
      out := out + [Mapping(Int32(ports[i].host), Int32(ports[i].container), proto)];
    }
  }

  method EncodeEntries(m: seq<Mapping>) returns (parts: seq<string>)
    ensures parts == EncodeAll(m)
  {
    parts := [];
    for i := 0 to |m|
      invariant parts == EncodeAll(m)[..i]
    {
      parts := parts + [EncodeOne(m[i])];
    }
  }

  method EncodePortMappings(ports: seq<Port>, lower: char -> char) returns (text: string)
    ensures text == Encode(ToMappings(ports, lower))
  {
    var m := GocniPortMappings(ports, lower);
    if |m| == 0 {
      return "";
    }
    var parts := EncodeEntries(m);
    text := Join(parts, ',');
  }

  method DecodePortMappings(text: string) returns (out: seq<Mapping>)
    ensures out == Decode(text)
  {
    out := [];
    var t := TrimSpace(text);
    if t == "" {
      return;
    }
    var es := Split(t, ',');
    for i := 0 to |es|
      invariant out == DecodeAll(es[..i])
    {
      DecodeAllConcat(es[..i], [es[i]]);
      assert es[..i] + [es[i]] == es[..i + 1];
      assert [es[i]][1..] == [];
      var slash := Cut(es[i], '/');
      if slash.None? {
        continue;
      }
      var colon := Cut(slash.value.0, ':');
      if colon.None? {
        continue;
      }
      var h, c := Atoi(colon.value.0), Atoi(colon.value.1);
      if h.None? || c.None? {
        continue;
      }
      out := out + [Mapping(Int32(h.value), Int32(c.value), slash.value.1)];
    }
    assert es[..|es|] == es;
  }

  // ------------------------------------------------------------------
  // The round trip
  // ------------------------------------------------------------------

  predicate Wellformed(ms: seq<Mapping>) {
    forall i :: 0 <= i < |ms| ==> IsInt32(ms[i].host) && IsInt32(ms[i].container)
  }

  predicate CommaFree(ms: seq<Mapping>) {
    forall i :: 0 <= i < |ms| ==> ',' !in ms[i].protocol
  }

  lemma PortsTextOf(h: string, c: string)
    requires h != [] && forall i :: 0 <= i < |h| ==> NumberChar(h[i])
    requires forall i :: 0 <= i < |c| ==> NumberChar(c[i])
    ensures var p := h + [':'] + c;
      Cut(p, ':') == Some((h, c)) && !IsSpace(p[0]) && '/' !in p && ',' !in p
  {
    CutAt(h, c, ':');
  }

  lemma PortsTextCuts(m: Mapping)
    ensures Cut(PortsText(m), ':') == Some((Itoa(m.host), Itoa(m.container)))
    ensures PortsText(m) != [] && !IsSpace(PortsText(m)[0]) && '/' !in PortsText(m) && ',' !in PortsText(m)
  {
    ItoaText(m.host);
    ItoaText(m.container);
    PortsTextOf(Itoa(m.host), Itoa(m.container));
  }

  lemma DecodeOneOf(e: string, ports: string, host: string, container: string, m: Mapping)
    requires IsInt32(m.host) && IsInt32(m.container)
    requires Cut(e, '/') == Some((ports, m.protocol)) && Cut(ports, ':') == Some((host, container))
    requires Atoi(host) == Some(m.host) && Atoi(container) == Some(m.container)
    ensures DecodeOne(e) == Some(m)
  {
  }

  lemma EntryDecodes(m: Mapping)
    requires IsInt32(m.host) && IsInt32(m.container)
    ensures DecodeOne(EncodeOne(m)) == Some(m)
  {
    PortsTextCuts(m);
    CutAt(PortsText(m), m.protocol, '/');
    ItoaParses(m.host);
    ItoaParses(m.container);
    DecodeOneOf(EncodeOne(m), PortsText(m), Itoa(m.host), Itoa(m.container), m);
  }

  lemma EntryText(m: Mapping)
    requires IsInt32(m.host) && IsInt32(m.container)
    ensures EncodeOne(m) != [] && !IsSpace(EncodeOne(m)[0])
    ensures ',' !in m.protocol ==> ',' !in EncodeOne(m)
  {
    PortsTextCuts(m);
  }

  lemma {:induction false} EntriesDecode(ms: seq<Mapping>)
    requires Wellformed(ms)
    ensures DecodeAll(EncodeAll(ms)) == ms
    decreases |ms|
  {
    if ms != [] {
      EntryDecodes(ms[0]);
      EntriesDecode(ms[1..]);
      assert EncodeAll(ms)[1..] == EncodeAll(ms[1..]);
    }
  }

  lemma EntriesFree(ms: seq<Mapping>)
    requires Wellformed(ms) && CommaFree(ms)
    ensures Free(EncodeAll(ms), ',')
  {
    forall i | 0 <= i < |ms|
      ensures ',' !in EncodeAll(ms)[i]
    {
      EntryText(ms[i]);
    }
  }

  predicate EndsBlank(s: string) {
    s != [] && IsSpace(s[|s| - 1])
  }

  /** The list with trailing white space dropped from its last protocol. */
  function TrimLast(ms: seq<Mapping>): seq<Mapping> {
    if ms == [] then []
    else
      var last := ms[|ms| - 1];
      ms[|ms| - 1 := last.(protocol := TrimRight(last.protocol))]
  }

  lemma {:induction false} TrimRightKeeps(head: string, w: string)
    requires head != [] && !IsSpace(head[|head| - 1])
    ensures TrimRight(head + w) == head + TrimRight(w)
    decreases |w|
  {
    var s := head + w;
    if w == [] {
      assert s == head;
    } else if IsSpace(w[|w| - 1]) {
      assert s[..|s| - 1] == head + w[..|w| - 1];
      TrimRightKeeps(head, w[..|w| - 1]);
    }
  }

  lemma {:induction false} TrimRightFixed(w: string)
    ensures TrimRight(w) == w <==> w == [] || !IsSpace(w[|w| - 1])
    ensures |TrimRight(w)| <= |w|
    ensures forall i :: 0 <= i < |TrimRight(w)| ==> TrimRight(w)[i] == w[i]
  {
    if w != [] && IsSpace(w[|w| - 1]) {
      TrimRightFixed(w[..|w| - 1]);
    }
  }

  lemma {:induction false} JoinSnoc(parts: seq<string>, p: string, sep: char)
    requires parts != []
    ensures Join(parts + [p], sep) == Join(parts, sep) + [sep] + p
  {
    if |parts| == 1 {
      assert (parts + [p])[1..] == [p];
    } else {
      assert (parts + [p])[1..] == parts[1..] + [p];
      JoinSnoc(parts[1..], p, sep);
    }
  }

  /** A label's text before its last protocol: it ends in a slash. */
  function LabelHead(front: seq<string>, m: Mapping): string {
    if front == [] then PortsText(m) + ['/'] else Join(front, ',') + [','] + (PortsText(m) + ['/'])
  }

  lemma LabelShape(front: seq<string>, m: Mapping)
    ensures Join(front + [EncodeOne(m)], ',') == LabelHead(front, m) + m.protocol
  {
    if front == [] {
      assert front + [EncodeOne(m)] == [EncodeOne(m)];
    } else {
      JoinSnoc(front, EncodeOne(m), ',');
    }
  }

  lemma LabelHeadEnds(front: seq<string>, m: Mapping)
    requires front != [] ==> front[0] != [] && !IsSpace(front[0][0])
    ensures var head := LabelHead(front, m);
      head != [] && !IsSpace(head[0]) && head[|head| - 1] == '/'
  {
    PortsTextCuts(m);
    if front != [] {
      assert Join(front, ',')[0] == front[0][0];
    }
  }

  lemma TrimAfter(head: string, w: string)
    requires head != [] && !IsSpace(head[0]) && !IsSpace(head[|head| - 1])
    ensures TrimSpace(head + w) == head + TrimRight(w)
  {
    assert (head + w)[0] == head[0];
    TrimRightKeeps(head, w);
  }

  /** A label is its head and its last protocol. */
  lemma EncodeShape(ms: seq<Mapping>, front: seq<string>, m: Mapping)
    requires ms != [] && m == ms[|ms| - 1] && front == EncodeAll(ms)[..|ms| - 1]
    ensures Encode(ms) == LabelHead(front, m) + m.protocol
  {
    assert EncodeAll(ms) == front + [EncodeOne(m)];
    LabelShape(front, m);
  }

  lemma FrontStarts(ms: seq<Mapping>)
    requires Wellformed(ms) && |ms| > 1
    ensures EncodeAll(ms)[0] != [] && !IsSpace(EncodeAll(ms)[0][0])
  {
    EntryText(ms[0]);
  }

  lemma FrontKept(ms: seq<Mapping>)
    requires ms != []
    ensures EncodeAll(TrimLast(ms))[..|ms| - 1] == EncodeAll(ms)[..|ms| - 1]
  {
  }

  /** Trimming a label trims its last protocol, and leaves something. */
  lemma TrimmedLabel(ms: seq<Mapping>)
    requires ms != [] && Wellformed(ms)
    ensures TrimSpace(Encode(ms)) == Encode(TrimLast(ms)) && Encode(TrimLast(ms)) != []
  {
    var n := |ms| - 1;
    var m := ms[n];
    var front := EncodeAll(ms)[..n];
    EncodeShape(ms, front, m);
    FrontKept(ms);
    EncodeShape(TrimLast(ms), front, TrimLast(ms)[n]);
    if n > 0 {
      FrontStarts(ms);
    }
    LabelHeadEnds(front, m);
    TrimAfter(LabelHead(front, m), m.protocol);
  }

  /** Decoding an encoded list gives it back, but for white space at the end of the last protocol. */
  lemma DecodeEncode(ms: seq<Mapping>)
    requires Wellformed(ms) && CommaFree(ms)
    ensures Decode(Encode(ms)) == TrimLast(ms)
  {
    if ms != [] {
      var ts := TrimLast(ms);
      TrimRightFixed(ms[|ms| - 1].protocol);
      assert CommaFree(ts);
      TrimmedLabel(ms);
      EntriesFree(ts);
      SplitJoin(EncodeAll(ts), ',');
      EntriesDecode(ts);
    }
  }

  lemma DecodedIsCommaFree(text: string)
    ensures CommaFree(Decode(text))
  {
    var t := TrimSpace(text);
    SplitFree(t, ',');
    DecodedHaveNoComma(Split(t, ','));
  }

  lemma {:induction false} DecodedHaveNoComma(es: seq<string>)
    requires Free(es, ',')
    ensures CommaFree(DecodeAll(es))
  {
    if es != [] {
      DecodedHaveNoComma(es[1..]);
      var slash := Cut(es[0], '/');
      if slash.Some? {
        CutKeepsChars(es[0], '/');
      }
    }
  }

  lemma {:induction false} CutKeepsChars(s: string, c: char)
    ensures Cut(s, c).Some? ==> forall x :: x in Cut(s, c).value.1 ==> x in s
  {
    if s != [] && s[0] != c {
      CutKeepsChars(s[1..], c);
    }
  }

  lemma TrimLastFixed(ms: seq<Mapping>)
    ensures TrimLast(ms) == ms <==> (ms != [] ==> !EndsBlank(ms[|ms| - 1].protocol))
  {
    if ms != [] {
      TrimRightFixed(ms[|ms| - 1].protocol);
      assert TrimLast(ms)[|ms| - 1].protocol == TrimRight(ms[|ms| - 1].protocol);
    }
  }

  lemma ExactIff(ms: seq<Mapping>)
    requires Wellformed(ms)
    ensures Decode(Encode(ms)) == ms <==> CommaFree(ms) && (ms != [] ==> !EndsBlank(ms[|ms| - 1].protocol))
  {
    if CommaFree(ms) {
      DecodeEncode(ms);
      TrimLastFixed(ms);
    } else {
      DecodedIsCommaFree(Encode(ms));
    }
  }

  /** The mappings made from any ports satisfy what the round trip needs. */
  lemma MappingsWellformed(ports: seq<Port>, lower: char -> char)
    ensures Wellformed(ToMappings(ports, lower))
  {
  }

  /**
   Teardown replays exactly the mappings of setup if and only if no protocol holds a comma
   and the last one does not end in white space.
   */
  lemma ReplayExactIff(ports: seq<Port>, lower: char -> char)
    ensures var ms := ToMappings(ports, lower);
      Decode(Encode(ms)) == ms <==>
      CommaFree(ms) && (ms != [] ==> !EndsBlank(ms[|ms| - 1].protocol))
  {
    MappingsWellformed(ports, lower);
    ExactIff(ToMappings(ports, lower));
  }

  /** A protocol with a comma, and one that ends in a blank, do not come back. */
  lemma SomeProtocolsAreLost(p: Port, lower: char -> char)
    requires lower(',') == ',' && lower(' ') == ' '
    ensures var ms := ToMappings([p.(protocol := "tcp,udp")], lower); Decode(Encode(ms)) != ms
    ensures var ms := ToMappings([p.(protocol := "tcp ")], lower); Decode(Encode(ms)) != ms
  {
    var comma, blank := p.(protocol := "tcp,udp"), p.(protocol := "tcp ");
    assert Lowered("tcp,udp", lower)[3] == ',' && Lowered("tcp ", lower)[3] == ' ';
    assert ',' in ToMapping(comma, lower).protocol;
    ReplayExactIff([comma], lower);
    ReplayExactIff([blank], lower);
  }

  /** The label spells host port, container port and protocol, in that order, one entry after another. */
  lemma LabelText(a: string, b: string)
    ensures Encode([Mapping(8, 9, a), Mapping(-5, 3, b)]) == "8:9/" + a + ",-5:3/" + b
  {
    assert Itoa(8) == "8" && Itoa(9) == "9" && Itoa(-5) == "-5" && Itoa(3) == "3";
    EntryIs(Mapping(8, 9, a), "8", "9", "8:9/");
    EntryIs(Mapping(-5, 3, b), "-5", "3", "-5:3/");
    var ms := [Mapping(8, 9, a), Mapping(-5, 3, b)];
    JoinTwo(EncodeAll(ms), "8:9/" + a, "-5:3/" + b);
    assert "8:9/" + a + [','] + ("-5:3/" + b) == "8:9/" + a + ",-5:3/" + b;
  }

  lemma EntryIs(m: Mapping, host: string, container: string, head: string)
    requires Itoa(m.host) == host && Itoa(m.container) == container && head == host + [':'] + container + ['/']
    ensures EncodeOne(m) == head + m.protocol
  {
  }

  lemma JoinTwo(parts: seq<string>, x: string, y: string)
    requires parts == [x, y]
    ensures Join(parts, ',') == x + [','] + y
  {
    assert parts[1..] == [y];
  }

  /** Digits are written most significant first. */
  lemma DecimalText()
    ensures Itoa(80) == "80" && Itoa(-443) == "-443"
  {
    assert NatText(8) == "8" && NatText(4) == "4" && NatText(44) == "44" && NatText(443) == "443";
  }

  /** An entry without a slash, or without a colon before it, is passed over. */
  lemma MalformedIsSkipped(before: seq<string>, bad: string, after: seq<string>)
    requires '/' !in bad || (forall i, j :: 0 <= i < j < |bad| && bad[i] == ':' ==> bad[j] != '/')
    ensures DecodeAll(before + [bad] + after) == DecodeAll(before) + DecodeAll(after)
  {
    NoCut(bad);
    DecodeAllConcat(before + [bad], after);
    DecodeAllConcat(before, [bad]);
    assert DecodeAll([bad]) == [];
  }

  lemma {:induction false} CutFindsFirst(s: string, c: char)
    ensures Cut(s, c).None? <==> c !in s
    ensures Cut(s, c).Some? ==> s == Cut(s, c).value.0 + [c] + Cut(s, c).value.1
  {
    if s != [] && s[0] != c {
      CutFindsFirst(s[1..], c);
    }
  }

  lemma NoCut(bad: string)
    requires '/' !in bad || (forall i, j :: 0 <= i < j < |bad| && bad[i] == ':' ==> bad[j] != '/')
    ensures DecodeOne(bad) == None
  {
    CutFindsFirst(bad, '/');
    if '/' in bad {
      var ports := Cut(bad, '/').value.0;
      CutFindsFirst(ports, ':');
      assert bad[|ports|] == '/';
      forall i | 0 <= i < |ports|
        ensures ports[i] != ':'
      {
        assert bad[i] == ports[i];
      }
    }
  }
}
