/**
 The addresses of Incus proxy devices as text (internal/containers/incus.go):
 what SetPorts writes is read back as the port, for every port it can be asked
 for, and what is read is one port or refused. Reading a host address is a
 parameter, as in PortText.
 */
module ProxyText {
  import opened Basics
  import opened Text
  import opened PortText

  function Bracket(ip: string): string {
    if ':' in ip then "[" + ip + "]" else ip
  }

  function ProxyAddr(proto: string, host: string, port: nat): string {
    proto + ":" + (Bracket(if host == "" then "0.0.0.0" else host) + ":" + Itoa(port))
  }

  function Uint16(s: string): Option<nat> {
    if s == "" || !AllDigits(s) || DigitsValue(s) > 65535 then None else Some(DigitsValue(s))
  }

  predicate Bracketed(text: string) {
    text != "" && text[0] == '['
  }

  function Unbracketed(text: string): string {
    if Bracketed(text) && |text| > 1 then text[1..|text| - 1] else text
  }

  /** An IPv6 address in brackets or an IPv4 address without, and a port. */
  function ReadAddrPort(text: string, number: string, addr: AddrReader): Option<(string, nat)> {
    if Bracketed(text) && text[|text| - 1] != ']' then None
    else
      var host, port := addr(Unbracketed(text)), Uint16(number);
      if host.None? || port.None? || Bracketed(text) != (':' in Unbracketed(text)) then None else Some((host.value, port.value))
  }

  /** netip.ParseAddrPort. */
  function ParseAddrPort(s: string, addr: AddrReader): Option<(string, nat)> {
    var i := LastIndexOf(s, ':');
    if i == |s| then None else ReadAddrPort(s[..i], s[i + 1..], addr)
  }

  function SplitProxyAddr(s: string, addr: AddrReader): Option<(string, string, nat)> {
    var i := IndexOf(s, ':');
    if i == |s| || (s[..i] != "tcp" && s[..i] != "udp") then None
    else
      match ParseAddrPort(s[i + 1..], addr)
      case None => None
      case Some((host, port)) => Some((s[..i], host, port))
  }

  /** A device that listens and connects at one port each, over the same protocol. */
  function ParseProxy(listen: string, connect: string, addr: AddrReader): Option<Port> {
    match (SplitProxyAddr(listen, addr), SplitProxyAddr(connect, addr))
    case (Some((lp, host, lport)), Some((cp, _, cport))) => if lp == cp then Some(Port(host, lport, cport, lp)) else None
    case _ => None
  }

  /** What the reader of addresses makes of the two that SetPorts writes by itself. */
  ghost predicate KnowsItsOwn(addr: AddrReader) {
    addr("0.0.0.0") == Some("") && addr("127.0.0.1").Some?
  }

  lemma CutAtLastColon(text: string, number: string, addr: AddrReader)
    requires ':' !in number
    ensures ParseAddrPort(text + ":" + number, addr) == ReadAddrPort(text, number, addr)
  {
    var s := text + ":" + number;
    LastIndexOfLast(text, ':', number);
    assert s[..|text|] == text && s[|text| + 1..] == number;
  }

  lemma AddrPortReadsBack(ip: string, port: nat, addr: AddrReader)
    requires port <= 65535 && ip != "" && ip[0] != '[' && addr(ip).Some?
    ensures ParseAddrPort(Bracket(ip) + ":" + Itoa(port), addr) == Some((addr(ip).value, port))
  {
    CutAtLastColon(Bracket(ip), Itoa(port), addr);
  }

  lemma ProxyAddrReadsBack(proto: string, host: string, port: nat, addr: AddrReader)
    requires (proto == "tcp" || proto == "udp") && port <= 65535 && KnowsItsOwn(addr)
    requires host == "" || host == "127.0.0.1" || Canonical(host, addr)
    ensures SplitProxyAddr(ProxyAddr(proto, host, port), addr) == Some((proto, if host == "" then "" else addr(host).value, port))
  {
    var ip := if host == "" then "0.0.0.0" else host;
    var rest := Bracket(ip) + ":" + Itoa(port);
    AddrPortReadsBack(ip, port, addr);
    ProtoInFront(proto, rest, addr);
  }

  lemma CutAtFirstColon(proto: string, rest: string)
    requires ':' !in proto
    ensures var s := proto + ":" + rest; IndexOf(s, ':') == |proto| < |s| && s[..|proto|] == proto && s[|proto| + 1..] == rest
  {
    IndexOfFirst(proto, ':', rest);
  }

  lemma ProtoInFront(proto: string, rest: string, addr: AddrReader)
    requires (proto == "tcp" || proto == "udp") && ParseAddrPort(rest, addr).Some?
    ensures var (host, port) := ParseAddrPort(rest, addr).value; SplitProxyAddr(proto + ":" + rest, addr) == Some((proto, host, port))
  {
    CutAtFirstColon(proto, rest);
  }

  /** The device written for a port is read back as that port. */
  lemma {:induction false} DeviceReadsBack(p: Port, addr: AddrReader)
    requires ValidPort(p, addr) && KnowsItsOwn(addr)
    ensures ParseProxy(ProxyAddr(p.proto, p.hostIP, p.hostPort), ProxyAddr(p.proto, "127.0.0.1", p.containerPort), addr) == Some(p)
  {
    ProxyAddrReadsBack(p.proto, p.hostIP, p.hostPort, addr);
    ProxyAddrReadsBack(p.proto, "127.0.0.1", p.containerPort, addr);
  }

  /** A device whose two ends differ in their protocol is no port. */
  lemma MixedProtocolsRefused(listen: string, connect: string, addr: AddrReader)
    requires SplitProxyAddr(listen, addr).Some? && SplitProxyAddr(connect, addr).Some?
    ensures ParseProxy(listen, connect, addr).Some? <==> SplitProxyAddr(listen, addr).value.0 == SplitProxyAddr(connect, addr).value.0
  {
  }

  /** Neither is an address in brackets that do not close, or without brackets although it has colons. */
  lemma BracketsAreChecked(text: string, number: string, addr: AddrReader)
    requires ':' !in number && text != ""
    requires (text[0] == '[' && text[|text| - 1] != ']') || (text[0] != '[' && ':' in text)
    ensures ParseAddrPort(text + ":" + number, addr) == None
  {
    CutAtLastColon(text, number, addr);
  }

  /** The text that is written, to the letter. */
  lemma DeviceText(host: string, port: nat)
    ensures ProxyAddr("tcp", "", port) == "tcp:0.0.0.0:" + Itoa(port)
    ensures ':' in host ==> ProxyAddr("udp", host, port) == "udp:[" + host + "]:" + Itoa(port)
    ensures host != "" && ':' !in host ==> ProxyAddr("udp", host, port) == "udp:" + host + ":" + Itoa(port)
  {
    assert "tcp" + ":" + ("0.0.0.0" + ":" + Itoa(port)) == "tcp:0.0.0.0:" + Itoa(port);
    if ':' in host {
      assert "udp" + ":" + ("[" + host + "]" + ":" + Itoa(port)) == "udp:[" + host + "]:" + Itoa(port);
    } else {
      assert "udp" + ":" + (host + ":" + Itoa(port)) == "udp:" + host + ":" + Itoa(port);
    }
  }

  /** A device is never read as anything but one port with a known protocol and numbers that fit. */
  lemma ReadDeviceIsPort(listen: string, connect: string, addr: AddrReader)
    requires PrintsCanonically(addr) && ParseProxy(listen, connect, addr).Some?
    ensures var p := ParseProxy(listen, connect, addr).value;
      Printable(p, addr) && p.hostPort <= 65535 && p.containerPort <= 65535
  {
  }
}
