/**
 Published ports as text (internal/containers/model.go): printing and reading
 lists in `docker run -p` form, each the inverse of the other on valid lists.
 Reading a host address stands for netip.ParseAddr(...).String(), with "" for
 the unspecified address.
 */
module PortText {
  import opened Basics
  import opened Text

  datatype Port = Port(hostIP: string, hostPort: nat, containerPort: nat, proto: string)

  datatype Parsed<T> = Ok(value: T) | Err(error: Problem)
  datatype Problem = BadProto | Unterminated | BadAddress | NoColon | BadNumber | ListedTwice

  type AddrReader = string -> Option<string>

  // ---- printing

  function Show(p: Port): string {
    (Front(p.hostIP) + (Itoa(p.hostPort) + ":" + Itoa(p.containerPort))) + "/" + p.proto
  }

  function Joined(texts: seq<string>): string {
    if texts == [] then "" else if |texts| == 1 then texts[0] else texts[0] + "," + Joined(texts[1..])
  }

  // ---- reading

  function PortNumber(s: string): Parsed<nat> {
    match Atoi(s)
    case Some(n) => if 1 <= n <= 65535 then Ok(n) else Err(BadNumber)
    case None => Err(BadNumber)
  }

  /** The protocol, and what stands before it. */
  function CutProto(s: string): (string, string) {
    var i := LastIndexOf(s, '/');
    if i < |s| then (Lower(s[i + 1..]), s[..i]) else ("tcp", s)
  }

  /** The host address in front, "1.2.3.4:" or "[::1]:", and what stands behind it. */
  function CutAddress(s: string): Parsed<(string, string)> {
    if s != [] && s[0] == '[' then
      var end := IndexOfPair(s, ']', ':');
      if end == |s| then Err(Unterminated) else Ok((s[1..end], s[end + 2..]))
    else
      var parts := Split(s, ':');
      if |parts| == 3 then Ok((parts[0], parts[1] + ":" + parts[2])) else Ok(("", s))
  }

  function ReadAddress(ip: string, addr: AddrReader): Parsed<string> {
    if ip == "" then Ok("")
    else match addr(ip) case Some(a) => Ok(a) case None => Err(BadAddress)
  }

  function ReadNumbers(s: string): Parsed<(nat, nat)> {
    var i := IndexOf(s, ':');
    if i == |s| then Err(NoColon)
    else
      match if s[..i] == "0" then Ok(0) else PortNumber(s[..i])
      case Err(e) => Err(e)
      case Ok(host) =>
        match PortNumber(s[i + 1..])
        case Err(e) => Err(e)
        case Ok(container) => Ok((host, container))
  }

  /** parsePort. */
  function ParsePort(s: string, addr: AddrReader): Parsed<Port> {
    var (proto, rest) := CutProto(s);
    if proto != "tcp" && proto != "udp" then Err(BadProto)
    else
      match CutAddress(rest)
      case Err(e) => Err(e)
      case Ok((ip, numbers)) =>
        match ReadAddress(ip, addr)
        case Err(e) => Err(e)
        case Ok(host) =>
          match ReadNumbers(numbers)
          case Err(e) => Err(e)
          case Ok((hostPort, containerPort)) => Ok(Port(host, hostPort, containerPort, proto))
  }

  predicate Separates(c: char) {
    c == ',' || c == '\n' || c == ' '
  }

  predicate OneField(s: string) {
    s != [] && forall i :: 0 <= i < |s| ==> !Separates(s[i])
  }

  function FieldLength(s: string): (n: nat)
    ensures n <= |s|
    ensures forall i :: 0 <= i < n ==> !Separates(s[i])
    ensures n < |s| ==> Separates(s[n])
  {
    if s == [] || Separates(s[0]) then 0 else 1 + FieldLength(s[1..])
  }

  /** strings.FieldsFunc. */
  function Fields(s: string): (fields: seq<string>)
    ensures forall f :: f in fields ==> OneField(f)
    decreases |s|
  {
    if s == [] then []
    else if Separates(s[0]) then Fields(s[1..])
    else
      var n := FieldLength(s);
      [s[..n]] + Fields(s[n..])
  }

  /** What may not be listed twice. */
  predicate Clash(p: Port, q: Port) {
    p.hostPort != 0 && p.hostPort == q.hostPort && p.hostIP == q.hostIP && p.proto == q.proto
  }

  /** One more port after those read so far. */
  function Append(ports: seq<Port>, p: Port): Parsed<seq<Port>> {
    if exists q :: q in ports && Clash(p, q) then Err(ListedTwice) else Ok(ports + [p])
  }

  /** One more port is refused exactly when its host port is fixed and taken at that address for that protocol. */
  lemma TwiceIff(ports: seq<Port>, p: Port)
    ensures Append(ports, p).Err? <==>
      p.hostPort > 0 && exists q :: q in ports && (q.hostIP, q.hostPort, q.proto) == (p.hostIP, p.hostPort, p.proto)
    ensures Append(ports, p).Ok? ==> Append(ports, p).value == ports + [p]
  {
  }

  function Then(sofar: Parsed<seq<Port>>, next: Parsed<Port>): Parsed<seq<Port>> {
    match sofar
    case Err(e) => Err(e)
    case Ok(ports) => match next case Err(e) => Err(e) case Ok(p) => Append(ports, p)
  }

  /** The ports of the texts read one after the other, or the first problem. */
  function ReadAll(read: string -> Parsed<Port>, texts: seq<string>): Parsed<seq<Port>> {
    if texts == [] then Ok([])
    else Then(ReadAll(read, texts[..|texts| - 1]), read(texts[|texts| - 1]))
  }

  function Reads(addr: AddrReader): string -> Parsed<Port> {
    s => ParsePort(TrimSpace(s), addr)
  }

  datatype Key = Key(hostIP: string, hostPort: nat, proto: string)

  lemma ReadAllPush(read: string -> Parsed<Port>, texts: seq<string>, i: nat)
    requires i < |texts|
    ensures ReadAll(read, texts[..i + 1]) == Then(ReadAll(read, texts[..i]), read(texts[i]))
  {
    assert texts[..i + 1][..i] == texts[..i];
  }

  lemma {:induction false} ErrorSticks(read: string -> Parsed<Port>, texts: seq<string>, i: nat)
    requires i <= |texts| && ReadAll(read, texts[..i]).Err?
    ensures ReadAll(read, texts) == ReadAll(read, texts[..i])
  {
    if i < |texts| {
      assert texts[..|texts| - 1][..i] == texts[..i];
      ErrorSticks(read, texts[..|texts| - 1], i);
    } else {
      assert texts[..i] == texts;
    }
  }

  /** ParsePorts, past the splitting into fields. */
  method ReadFields(fields: seq<string>, read: string -> Parsed<Port>) returns (r: Parsed<seq<Port>>)
    ensures r == ReadAll(read, fields)
  {
    var out: seq<Port> := [];
    var seen: set<Key> := {};
    for i := 0 to |fields|
      invariant ReadAll(read, fields[..i]) == Ok(out)
      invariant forall k :: k in seen <==> exists q :: q in out && k == Key(q.hostIP, q.hostPort, q.proto)
    {
      ReadAllPush(read, fields, i);
      var p := read(fields[i]);
      if p.Err? {
        ErrorSticks(read, fields, i + 1);
        return Err(p.error);
      }
      var key := Key(p.value.hostIP, p.value.hostPort, p.value.proto);
      if p.value.hostPort != 0 && key in seen {
        ErrorSticks(read, fields, i + 1);
        return Err(ListedTwice);
      }
      seen := seen + {key};
      out := out + [p.value];
    }
    assert fields[..|fields|] == fields;
    return Ok(out);
  }

  method ParsePorts(spec: string, addr: AddrReader) returns (r: Parsed<seq<Port>>)
    ensures r == ReadAll(Reads(addr), Fields(spec))
  {
    r := ReadFields(Fields(spec), Reads(addr));
  }

  // ---- what is read back

  /** A text a host address reader gives back: no separators, brackets or slashes, and read as itself. */
  predicate Canonical(ip: string, addr: AddrReader) {
    && ip != "" && addr(ip) == Some(ip)
    && forall i :: 0 <= i < |ip| ==> !Separates(ip[i]) && !IsSpace(ip[i]) && ip[i] != '[' && ip[i] != ']'
  }

  /** The reader prints addresses the canonical way. */
  ghost predicate PrintsCanonically(addr: AddrReader) {
    forall s :: addr(s).Some? && addr(s).value != "" ==> Canonical(addr(s).value, addr)
  }

  predicate ValidPort(p: Port, addr: AddrReader) {
    p.hostPort <= 65535 && 1 <= p.containerPort <= 65535 && Printable(p, addr)
  }

  predicate NoClash(ports: seq<Port>) {
    forall i, j :: 0 <= i < j < |ports| ==> !Clash(ports[j], ports[i])
  }

  lemma NumbersReadBack(hostPort: nat, containerPort: nat)
    requires hostPort <= 65535 && 1 <= containerPort <= 65535
    ensures ReadNumbers(Itoa(hostPort) + ":" + Itoa(containerPort)) == Ok((hostPort, containerPort))
  {
    IndexOfFirst(Itoa(hostPort), ':', Itoa(containerPort));
    var s := Itoa(hostPort) + ":" + Itoa(containerPort);
    assert s[..|Itoa(hostPort)|] == Itoa(hostPort) && s[|Itoa(hostPort)| + 1..] == Itoa(containerPort);
    if hostPort > 0 { assert Itoa(hostPort) != "0"; }
  }

  /** The address in front, as Show prints it. */
  function Front(ip: string): string {
    if ip == "" then "" else if ':' in ip then "[" + ip + "]:" else ip + ":"
  }

  lemma BracketsReadBack(ip: string, numbers: string)
    requires ']' !in ip
    ensures CutAddress("[" + ip + "]:" + numbers) == Ok((ip, numbers))
  {
    var s := "[" + ip + "]:" + numbers;
    assert s == ("[" + ip) + [']', ':'] + numbers;
    IndexOfPairFirst("[" + ip, ']', ':', numbers);
    assert s[1..|ip| + 1] == ip && s[|ip| + 3..] == numbers;
  }

  lemma NoAddressReadsBack(a: string, b: string)
    requires ':' !in a && ':' !in b && (a == [] || a[0] != '[')
    ensures CutAddress(a + ":" + b) == Ok(("", a + ":" + b))
  {
    SplitFirst(a, ':', b);
    SplitNone(b, ':');
    if a != [] { assert (a + ":" + b)[0] == a[0]; }
  }

  lemma PlainReadsBack(ip: string, a: string, b: string)
    requires ':' !in ip && ':' !in a && ':' !in b && (ip == [] || ip[0] != '[')
    ensures CutAddress(ip + ":" + (a + ":" + b)) == Ok((ip, a + ":" + b))
  {
    var s := ip + ":" + (a + ":" + b);
    SplitFirst(ip, ':', a + ":" + b);
    SplitFirst(a, ':', b);
    SplitNone(b, ':');
    if ip != [] { assert s[0] == ip[0]; }
  }

  lemma AddressReadsBack(ip: string, a: string, b: string, addr: AddrReader)
    requires ip == "" || Canonical(ip, addr)
    requires ':' !in a && ':' !in b && (a == [] || a[0] != '[')
    ensures CutAddress(Front(ip) + (a + ":" + b)) == Ok((ip, a + ":" + b))
  {
    if ip == "" {
      assert Front(ip) + (a + ":" + b) == a + ":" + b;
      NoAddressReadsBack(a, b);
    } else if ':' in ip {
      BracketsReadBack(ip, a + ":" + b);
    } else {
      PlainReadsBack(ip, a, b);
    }
  }

  lemma ProtoReadsBack(front: string, proto: string)
    requires '/' !in proto && Lower(proto) == proto
    ensures CutProto(front + "/" + proto) == (proto, front)
  {
    LastIndexOfLast(front, '/', proto);
    var s := front + "/" + proto;
    assert s[..|front|] == front && s[|front| + 1..] == proto;
  }

  lemma Stages(s: string, p: Port, rest: string, numbers: string, addr: AddrReader)
    ensures (&& CutProto(s) == (p.proto, rest) && (p.proto == "tcp" || p.proto == "udp")
             && CutAddress(rest) == Ok((p.hostIP, numbers)) && ReadAddress(p.hostIP, addr) == Ok(p.hostIP)
             && ReadNumbers(numbers) == Ok((p.hostPort, p.containerPort))) ==> ParsePort(s, addr) == Ok(p)
  {
  }

  /** A printed port is read back as itself. */
  lemma PortReadsBack(p: Port, addr: AddrReader)
    requires ValidPort(p, addr)
    ensures ParsePort(Show(p), addr) == Ok(p)
  {
    var numbers := Itoa(p.hostPort) + ":" + Itoa(p.containerPort);
    Apart(p, addr);
    NumbersReadBack(p.hostPort, p.containerPort);
    Stages(Show(p), p, Front(p.hostIP) + numbers, numbers, addr);
  }

  /** A known protocol, and no address or a canonical one; the numbers may be any. */
  predicate Printable(p: Port, addr: AddrReader) {
    (p.hostIP == "" || Canonical(p.hostIP, addr)) && (p.proto == "tcp" || p.proto == "udp")
  }

  /** Two ports that print the same are the same. */
  lemma ShowDistinguishes(p: Port, q: Port, addr: AddrReader)
    requires Printable(p, addr) && Printable(q, addr) && Show(p) == Show(q)
    ensures p == q
  {
    Apart(p, addr);
    Apart(q, addr);
    PairDistinct(Itoa(p.hostPort), Itoa(p.containerPort), Itoa(q.hostPort), Itoa(q.containerPort));
    assert DigitsValue(Itoa(p.hostPort)) == DigitsValue(Itoa(q.hostPort));
  }

  lemma PairDistinct(a: string, b: string, c: string, d: string)
    requires ':' !in a && ':' !in c && a + ":" + b == c + ":" + d
    ensures a == c && b == d
  {
    IndexOfFirst(a, ':', b);
    IndexOfFirst(c, ':', d);
    assert a == (a + ":" + b)[..|a|] && b == (a + ":" + b)[|a| + 1..];
    assert c == (c + ":" + d)[..|c|] && d == (c + ":" + d)[|c| + 1..];
  }

  lemma ColonFree(n: nat)
    ensures ':' !in Itoa(n)
  {
  }

  lemma KnownProtoReadsBack(front: string, proto: string)
    requires proto == "tcp" || proto == "udp"
    ensures CutProto(front + "/" + proto) == (proto, front)
  {
    assert Lower(proto) == proto;
    ProtoReadsBack(front, proto);
  }

  /** The parts of a printed port, as they are read. */
  lemma Apart(p: Port, addr: AddrReader)
    requires Printable(p, addr)
    ensures ':' !in Itoa(p.hostPort) && ':' !in Itoa(p.containerPort)
    ensures var numbers := Itoa(p.hostPort) + ":" + Itoa(p.containerPort);
      CutProto(Show(p)) == (p.proto, Front(p.hostIP) + numbers) && CutAddress(Front(p.hostIP) + numbers) == Ok((p.hostIP, numbers))
  {
    var a, b := Itoa(p.hostPort), Itoa(p.containerPort);
    ColonFree(p.hostPort);
    ColonFree(p.containerPort);
    AddressReadsBack(p.hostIP, a, b, addr);
    KnownProtoReadsBack(Front(p.hostIP) + (a + ":" + b), p.proto);
  }

  // ---- lists

  lemma FirstField(f: string, rest: string)
    requires OneField(f) && (rest == [] || Separates(rest[0]))
    ensures Fields(f + rest) == [f] + Fields(rest)
  {
    var s := f + rest;
    var n := FieldLength(s);
    if n < |s| { assert Separates(s[n]); }
    assert s[0] == f[0];
    if rest != [] { assert s[|f|] == rest[0]; }
    assert n == |f|;
    assert s[..n] == f && s[n..] == rest;
  }

  /** A comma, a space or the end of a line separates two fields, and nothing else does. */
  lemma SeparatedBy(f: string, c: char, g: string)
    requires OneField(f) && OneField(g)
    ensures c in {',', ' ', '\n'} ==> Fields(f + [c] + g) == [f, g]
    ensures c !in {',', ' ', '\n'} ==> Fields(f + [c] + g) == [f + [c] + g]
  {
    LastField(g);
    if Separates(c) {
      FirstField(f, [c] + g);
      assert f + ([c] + g) == f + [c] + g && ([c] + g)[1..] == g;
    } else {
      LastField(f + [c] + g);
    }
  }

  lemma LastField(f: string)
    requires OneField(f)
    ensures Fields(f) == [f]
  {
    FirstField(f, "");
    assert f + "" == f && Fields("") == [];
  }

  lemma {:induction false} JoinedFields(texts: seq<string>)
    requires forall t :: t in texts ==> OneField(t)
    ensures Fields(Joined(texts)) == texts
  {
    if |texts| == 1 {
      FirstField(texts[0], "");
      assert texts[0] + "" == texts[0] && Fields("") == [];
    } else if |texts| > 1 {
      JoinedFields(texts[1..]);
      FirstField(texts[0], "," + Joined(texts[1..]));
      assert texts[0] + "," + Joined(texts[1..]) == texts[0] + ("," + Joined(texts[1..]));
      assert ("," + Joined(texts[1..]))[1..] == Joined(texts[1..]);
      assert texts == [texts[0]] + texts[1..];
    }
  }

  predicate NoSeparator(s: string) {
    forall i :: 0 <= i < |s| ==> !Separates(s[i])
  }

  predicate NoSpaceAtEnds(s: string) {
    s != [] && !IsSpace(s[0]) && !IsSpace(s[|s| - 1])
  }

  /** A printed port is one field, with no space around it. */
  lemma ShowIsOneField(p: Port, addr: AddrReader)
    requires ValidPort(p, addr)
    ensures OneField(Show(p)) && NoSpaceAtEnds(Show(p))
  {
    var numbers := Itoa(p.hostPort) + ":" + Itoa(p.containerPort);
    assert NoSeparator(numbers) && !IsSpace(numbers[0]);
    assert NoSeparator(Front(p.hostIP)) && (p.hostIP != "" ==> !IsSpace(Front(p.hostIP)[0]));
    assert NoSeparator(p.proto) && !IsSpace(p.proto[|p.proto| - 1]);
  }

  function ShowAll(ports: seq<Port>): (texts: seq<string>)
    ensures |texts| == |ports|
    ensures forall i :: 0 <= i < |ports| ==> texts[i] == Show(ports[i])
  {
    seq(|ports|, i requires 0 <= i < |ports| => Show(ports[i]))
  }

  lemma {:induction false} ReadAllBack(read: string -> Parsed<Port>, texts: seq<string>, ports: seq<Port>)
    requires |texts| == |ports| && forall i :: 0 <= i < |texts| ==> read(texts[i]) == Ok(ports[i])
    requires NoClash(ports)
    ensures ReadAll(read, texts) == Ok(ports)
  {
    if texts == [] {
    } else {
      var init, p := ports[..|ports| - 1], ports[|ports| - 1];
      ReadAllBack(read, texts[..|texts| - 1], init);
      assert init + [p] == ports;
    }
  }

  lemma ReadsItself(p: Port, addr: AddrReader)
    requires ValidPort(p, addr)
    ensures Reads(addr)(Show(p)) == Ok(p)
  {
    ShowIsOneField(p, addr);
    EndsTrimmed(Show(p));
    PortReadsBack(p, addr);
  }

  ghost predicate AllValid(ports: seq<Port>, addr: AddrReader) {
    forall p :: p in ports ==> ValidPort(p, addr)
  }

  /** What is read is valid and lists nothing twice. */
  lemma {:induction false} ReadIsValid(read: string -> Parsed<Port>, texts: seq<string>, addr: AddrReader)
    requires forall t :: read(t).Ok? ==> ValidPort(read(t).value, addr)
    requires ReadAll(read, texts).Ok?
    ensures AllValid(ReadAll(read, texts).value, addr) && NoClash(ReadAll(read, texts).value)
  {
    if texts == [] {
    } else {
      ReadIsValid(read, texts[..|texts| - 1], addr);
    }
  }

  lemma ReadPortIsValid(s: string, addr: AddrReader)
    requires PrintsCanonically(addr)
    ensures ParsePort(s, addr).Ok? ==> ValidPort(ParsePort(s, addr).value, addr)
  {
  }

  /** The lists that printing and reading returns are exactly the valid ones without a port listed twice. */
  lemma {:induction false} RoundTripIff(ports: seq<Port>, addr: AddrReader)
    requires PrintsCanonically(addr)
    ensures ReadAll(Reads(addr), Fields(Joined(ShowAll(ports)))) == Ok(ports) <==> AllValid(ports, addr) && NoClash(ports)
  {
    var read := Reads(addr);
    if ReadAll(read, Fields(Joined(ShowAll(ports)))) == Ok(ports) {
      forall t | read(t).Ok? ensures ValidPort(read(t).value, addr) {
        ReadPortIsValid(TrimSpace(t), addr);
      }
      ReadIsValid(read, Fields(Joined(ShowAll(ports))), addr);
    }
    if AllValid(ports, addr) && NoClash(ports) {
      RoundTrip(ports, addr);
    }
  }

  lemma {:induction false} RoundTrip(ports: seq<Port>, addr: AddrReader)
    requires AllValid(ports, addr) && NoClash(ports)
    ensures ReadAll(Reads(addr), Fields(Joined(ShowAll(ports)))) == Ok(ports)
  {
    var texts := ShowAll(ports);
    forall t | t in texts ensures OneField(t) {
      var i :| 0 <= i < |texts| && t == texts[i];
      ShowIsOneField(ports[i], addr);
    }
    JoinedFields(texts);
    forall i | 0 <= i < |texts| ensures Reads(addr)(texts[i]) == Ok(ports[i]) {
      ReadsItself(ports[i], addr);
    }
    ReadAllBack(Reads(addr), texts, ports);
  }

  /** Whatever was read prints as a text that reads the same. */
  lemma {:induction false} ReadPrintRead(spec: string, addr: AddrReader)
    requires PrintsCanonically(addr) && ReadAll(Reads(addr), Fields(spec)).Ok?
    ensures var ports := ReadAll(Reads(addr), Fields(spec)).value;
      ReadAll(Reads(addr), Fields(Joined(ShowAll(ports)))) == Ok(ports)
  {
    var read := Reads(addr);
    forall t | read(t).Ok? ensures ValidPort(read(t).value, addr) {
      ReadPortIsValid(TrimSpace(t), addr);
    }
    ReadIsValid(read, Fields(spec), addr);
    RoundTrip(ReadAll(read, Fields(spec)).value, addr);
  }
}
