/**
 The short port syntax of compose files (internal/containers/compose.go):
 reading [ip:][host:]container[/proto], telling whether an item publishes a
 port, and rewriting its address on its line, so that the rewritten item says
 what was asked for and the rest of the line stays.
 */
module ComposeText {
  import opened Basics
  import opened Text
  import PortText

  /** [ip:][host:]container[/proto]. */
  datatype ShortPort = ShortPort(ip: string, host: string, container: string, proto: string)

  datatype Action = Local | Public

  datatype Style = Plain | SingleQuoted | DoubleQuoted | OtherStyle

  /** The address in brackets in front, and what stands behind it. */
  function CutBrackets(s: string): Option<(string, string)> {
    if s == [] || s[0] != '[' then Some(("", s))
    else
      var end := IndexOfPair(s, ']', ':');
      if end == |s| || |Split(s[end + 2..], ':')| != 2 then None else Some((s[1..end], s[end + 2..]))
  }

  function Assemble(ip: string, parts: seq<string>, proto: string): Option<ShortPort> {
    if |parts| == 1 then Some(ShortPort(ip, "", parts[0], proto))
    else if |parts| == 2 then Some(ShortPort(ip, parts[0], parts[1], proto))
    else if |parts| == 3 && ip == "" then Some(ShortPort(parts[0], parts[1], parts[2], proto))
    else None
  }

  function ParseShort(s: string): Option<ShortPort> {
    var (proto, front) := PortText.CutProto(s);
    match CutBrackets(front)
    case None => None
    case Some((ip, rest)) => Assemble(ip, Split(rest, ':'), proto)
  }

  /** Whether a short-syntax item publishes the port; variables and ranges never do. */
  predicate Matches(value: string, hostPort: nat, proto: string) {
    && '$' !in value && ParseShort(value).Some?
    && '-' !in ParseShort(value).value.host
    && ParseShort(value).value.host == Itoa(hostPort) && ParseShort(value).value.proto == proto
  }

  /** The address an item publishes on, "" for all. */
  function HostIPOf(p: ShortPort): string {
    if p.ip == "0.0.0.0" || p.ip == "::" then "" else p.ip
  }

  function Asked(action: Action): string {
    match action case Local => "127.0.0.1" case Public => ""
  }

  /** The item rewritten. */
  function Rewritten(value: string, p: ShortPort, action: Action): string {
    (PortText.Front(Asked(action)) + (p.host + ":" + p.container))
    + if p.proto != "tcp" || '/' in value then "/" + p.proto else ""
  }

  function Token(value: string, style: Style): string {
    match style
    case DoubleQuoted => "\"" + value + "\""
    case SingleQuoted => "'" + value + "'"
    case Plain => value
    case OtherStyle => ""
  }

  /** rewriteScalar: the item on its line, always in double quotes; the rest of the line stays. */
  function RewriteScalar(line: string, col: int, value: string, style: Style, action: Action): Option<string> {
    if col < 0 || col >= |line| || style.OtherStyle? then None
    else if !(Token(value, style) <= line[col..]) then None
    else
      match ParseShort(value)
      case None => None
      case Some(p) => Some(line[..col] + "\"" + Rewritten(value, p, action) + "\"" + line[col + |Token(value, style)|..])
  }

  // ---- what the syntax says

  predicate Without(s: string, chars: string) {
    forall c :: c in chars ==> c !in s
  }

  /** Parts that can stand between the signs of the syntax. */
  predicate Clean(p: ShortPort) {
    && Without(p.host, ":/[") && Without(p.container, ":/[") && Without(p.ip, "/[]")
    && Without(p.proto, "/") && Lower(p.proto) == p.proto
  }

  /** In front of the container's port: nothing, the host's port, an address and it, in brackets when the address has colons. */
  function Written(p: ShortPort): string {
    if p.ip != "" then (if ':' in p.ip then "[" + p.ip + "]" else p.ip) + ":" + (p.host + ":" + p.container)
    else if p.host != "" then p.host + ":" + p.container
    else p.container
  }

  lemma BracketedReads(ip: string, host: string, container: string, proto: string)
    requires ip != "" && ']' !in ip && ':' !in host && ':' !in container
    ensures var front := "[" + ip + "]" + ":" + (host + ":" + container);
      CutBrackets(front) == Some((ip, host + ":" + container))
      && Assemble(ip, Split(host + ":" + container, ':'), proto) == Some(ShortPort(ip, host, container, proto))
  {
    var rest := host + ":" + container;
    var front := "[" + ip + "]" + ":" + rest;
    assert front == ("[" + ip) + [']', ':'] + rest;
    IndexOfPairFirst("[" + ip, ']', ':', rest);
    SplitsInTwo(host, container);
    assert front[1..|ip| + 1] == ip && front[|ip| + 3..] == rest;
  }

  lemma PlainReads(ip: string, host: string, container: string, proto: string)
    requires ip != "" && ip[0] != '[' && ':' !in ip && ':' !in host && ':' !in container
    ensures var front := ip + ":" + (host + ":" + container);
      CutBrackets(front) == Some(("", front)) && Assemble("", Split(front, ':'), proto) == Some(ShortPort(ip, host, container, proto))
  {
    SplitsInTwo(host, container);
    SplitFirst(ip, ':', host + ":" + container);
    assert (ip + ":" + (host + ":" + container))[0] == ip[0];
  }

  lemma BareReads(p: ShortPort)
    requires Clean(p) && p.ip == ""
    ensures CutBrackets(Written(p)) == Some(("", Written(p))) && Assemble("", Split(Written(p), ':'), p.proto) == Some(p)
  {
    assert '[' in ":/[" && ':' in ":/[";
    if p.host != "" {
      SplitsInTwo(p.host, p.container);
      assert Written(p)[0] == p.host[0] && p.host[0] in p.host;
    } else {
      SplitNone(p.container, ':');
      if p.container != "" { assert p.container[0] in p.container; }
    }
  }

  lemma {:induction false} WrittenReads(p: ShortPort)
    requires Clean(p)
    ensures match CutBrackets(Written(p))
      case None => false
      case Some((ip, rest)) => Assemble(ip, Split(rest, ':'), p.proto) == Some(p)
  {
    assert '[' in ":/[" && ':' in ":/[" && '[' in "/[]" && ']' in "/[]";
    if p.ip == "" {
      BareReads(p);
    } else if ':' in p.ip {
      BracketedReads(p.ip, p.host, p.container, p.proto);
    } else {
      assert p.ip[0] in p.ip;
      PlainReads(p.ip, p.host, p.container, p.proto);
    }
  }

  /** An item that is written out is read as what it says, an IPv6 address in brackets included. */
  lemma ShortReads(p: ShortPort)
    requires Clean(p)
    ensures ParseShort(Written(p) + ("/" + p.proto)) == Some(p)
  {
    assert '/' in "/";
    WrittenOut(Written(p), p.proto);
    WrittenReads(p);
  }

  /** So it publishes a port exactly when it names it; one with a variable never does. */
  lemma MatchesIff(p: ShortPort, hostPort: nat, proto: string)
    requires Clean(p)
    ensures var value := Written(p) + ("/" + p.proto);
      Matches(value, hostPort, proto) <==> '$' !in value && p.host == Itoa(hostPort) && p.proto == proto
  {
    ShortReads(p);
  }

  /** Everything but the two ways to write all addresses is an address of its own. */
  lemma HostIPIs(p: ShortPort)
    ensures HostIPOf(p) == "" <==> p.ip in {"", "0.0.0.0", "::"}
    ensures HostIPOf(p) != "" ==> HostIPOf(p) == p.ip
  {
  }

  /** How an item stands on its line in a style. */
  predicate StandsAs(token: string, value: string, style: Style) {
    || (style == Plain && token == value)
    || (style == SingleQuoted && token == "'" + value + "'")
    || (style == DoubleQuoted && token == "\"" + value + "\"")
  }

  /** Exactly where an item can be read and stands as it is said to, it is rewritten, and nothing around it. */
  lemma RewrittenWhereItStands(left: string, token: string, right: string, value: string, style: Style, action: Action)
    requires token + right != ""
    ensures StandsAs(token, value, style) && ParseShort(value).Some? ==>
      RewriteScalar(left + token + right, |left|, value, style, action)
        == Some(left + "\"" + Rewritten(value, ParseShort(value).value, action) + "\"" + right)
  {
    var line := left + token + right;
    assert line[|left|..] == token + right && line[..|left|] == left && line[|left| + |token|..] == right;
  }

  lemma NotRewrittenElsewhere(line: string, col: int, value: string, style: Style, action: Action) returns (token: string)
    requires RewriteScalar(line, col, value, style, action).Some?
    ensures ParseShort(value).Some? && 0 <= col < |line|
    ensures token <= line[col..] && StandsAs(token, value, style)
  {
    token := Token(value, style);
  }

  /** An address in brackets needs both ports behind it. */
  lemma BracketsNeedBoth(ip: string, container: string)
    requires ']' !in ip && ':' !in container
    ensures CutBrackets("[" + ip + "]" + ":" + container) == None
  {
    var front := "[" + ip + "]" + ":" + container;
    assert front == ("[" + ip) + [']', ':'] + container;
    IndexOfPairFirst("[" + ip, ']', ':', container);
    assert front[|ip| + 3..] == container;
    SplitNone(container, ':');
  }

  // ---- what the rewritten item says

  lemma PartsHaveNoColon(value: string)
    requires ParseShort(value).Some?
    ensures ':' !in ParseShort(value).value.host && ':' !in ParseShort(value).value.container
  {
  }

  lemma ProtoHasNoSlash(s: string)
    ensures '/' !in PortText.CutProto(s).0 && Lower(PortText.CutProto(s).0) == PortText.CutProto(s).0
    ensures '/' !in s ==> PortText.CutProto(s) == ("tcp", s)
  {
    var i := LastIndexOf(s, '/');
  }

  lemma {:induction false} SplitHasNoMore(s: string, c: char, d: char)
    requires d !in s
    ensures forall part :: part in Split(s, c) ==> d !in part
    decreases |s|
  {
    var i := IndexOf(s, c);
    if i == |s| {
    } else {
      SplitHasNoMore(s[i + 1..], c, d);
    }
  }

  lemma PartsHaveNo(value: string, d: char)
    requires ParseShort(value).Some? && d !in value
    ensures d !in ParseShort(value).value.host && d !in ParseShort(value).value.container
  {
    var front := PortText.CutProto(value).1;
    FrontHasNo(value, d);
    RestHasNo(front, d);
    SplitHasNoMore(CutBrackets(front).value.1, ':', d);
  }

  lemma FrontHasNo(value: string, d: char)
    requires d !in value
    ensures d !in PortText.CutProto(value).1
  {
  }

  lemma RestHasNo(front: string, d: char)
    requires d !in front && CutBrackets(front).Some?
    ensures d !in CutBrackets(front).value.1
  {
  }

  lemma WrittenOut(front: string, proto: string)
    requires '/' !in proto && Lower(proto) == proto
    ensures PortText.CutProto(front + ("/" + proto)) == (proto, front)
  {
    PortText.ProtoReadsBack(front, proto);
    assert front + ("/" + proto) == front + "/" + proto;
  }

  /** The protocol is written out when it is needed, and reads the same. */
  lemma ProtoStays(value: string, front: string)
    requires '/' !in value ==> '/' !in front
    ensures var proto := PortText.CutProto(value).0;
      PortText.CutProto(front + if proto != "tcp" || '/' in value then "/" + proto else "") == (proto, front)
  {
    var proto := PortText.CutProto(value).0;
    ProtoHasNoSlash(value);
    if proto != "tcp" || '/' in value {
      WrittenOut(front, proto);
    } else {
      ProtoHasNoSlash(front);
      assert front + "" == front;
    }
  }

  lemma SplitsInTwo(host: string, container: string)
    requires ':' !in host && ':' !in container
    ensures Split(host + ":" + container, ':') == [host, container]
  {
    SplitFirst(host, ':', container);
    SplitNone(container, ':');
  }

  lemma LocalReads(host: string, container: string, proto: string)
    requires ':' !in host && ':' !in container
    ensures var front := "127.0.0.1:" + (host + ":" + container);
      CutBrackets(front) == Some(("", front)) && Assemble("", Split(front, ':'), proto) == Some(ShortPort("127.0.0.1", host, container, proto))
  {
    SplitsInTwo(host, container);
    SplitFirst("127.0.0.1", ':', host + ":" + container);
    assert "127.0.0.1:" + (host + ":" + container) == "127.0.0.1" + ":" + (host + ":" + container);
  }

  lemma PublicReads(host: string, container: string, proto: string)
    requires ':' !in host && ':' !in container && (host == "" || host[0] != '[')
    ensures var front := host + ":" + container;
      CutBrackets(front) == Some(("", front)) && Assemble("", Split(front, ':'), proto) == Some(ShortPort("", host, container, proto))
  {
    SplitsInTwo(host, container);
    if host != "" { assert (host + ":" + container)[0] == host[0]; }
  }

  /** A bare host that starts with a bracket is read as an address in brackets. */
  lemma BracketReads(host: string, container: string)
    requires ':' !in host && ':' !in container && host != "" && host[0] == '['
    ensures CutBrackets(host + ":" + container) == None
  {
    var s := host + ":" + container;
    var end := IndexOfPair(s, ']', ':');
    assert s[0] == '[';
    OneColon(host, container);
    assert end < |s| ==> s[end + 1] == ':';
    if end < |s| {
      assert s[end + 2..] == container;
      SplitNone(container, ':');
    }
  }

  lemma OneColon(host: string, container: string)
    requires ':' !in host && ':' !in container
    ensures forall k :: 0 <= k < |host + ":" + container| && (host + ":" + container)[k] == ':' ==> k == |host|
  {
    var s := host + ":" + container;
    assert forall k :: 0 <= k < |host| ==> s[k] == host[k];
    assert forall k :: |host| < k < |s| ==> s[k] == container[k - |host| - 1];
  }

  /**
   The rewritten item keeps host port, container port and protocol and has
   exactly the address asked for, unless it is made public and its host part
   starts with a bracket: then it can no longer be read.
   */
  lemma RewrittenReads(value: string, action: Action)
    requires ParseShort(value).Some?
    ensures var p := ParseShort(value).value;
      ParseShort(Rewritten(value, p, action)) ==
        if action == Public && p.host != "" && p.host[0] == '[' then None else Some(p.(ip := Asked(action)))
  {
    var p := ParseShort(value).value;
    var front := PortText.Front(Asked(action)) + (p.host + ":" + p.container);
    PartsHaveNoColon(value);
    if '/' !in value { PartsHaveNo(value, '/'); NothingNewInFront(p, action, '/'); }
    ProtoStays(value, front);
    ProtoOf(value);
    FrontReads(p, action);
    Stages(Rewritten(value, p, action), front, p.proto);
  }

  lemma ProtoOf(value: string)
    requires ParseShort(value).Some?
    ensures ParseShort(value).value.proto == PortText.CutProto(value).0
  {
  }

  lemma Stages(s: string, front: string, proto: string)
    requires PortText.CutProto(s) == (proto, front)
    ensures CutBrackets(front) == None ==> ParseShort(s) == None
    ensures CutBrackets(front) == Some(("", front)) ==> ParseShort(s) == Assemble("", Split(front, ':'), proto)
  {
  }

  lemma NothingNewInFront(p: ShortPort, action: Action, d: char)
    requires d !in p.host && d !in p.container && (d == '/' || d == '$')
    ensures d !in PortText.Front(Asked(action)) + (p.host + ":" + p.container)
  {
  }

  lemma FrontReads(p: ShortPort, action: Action)
    requires ':' !in p.host && ':' !in p.container
    ensures var front := PortText.Front(Asked(action)) + (p.host + ":" + p.container);
      if action == Public && p.host != "" && p.host[0] == '[' then CutBrackets(front) == None
      else CutBrackets(front) == Some(("", front)) && Assemble("", Split(front, ':'), p.proto) == Some(p.(ip := Asked(action)))
  {
    var front := PortText.Front(Asked(action)) + (p.host + ":" + p.container);
    if action == Local {
      assert PortText.Front("127.0.0.1") == "127.0.0.1:";
      LocalReads(p.host, p.container, p.proto);
    } else {
      assert front == p.host + ":" + p.container;
      if p.host != "" && p.host[0] == '[' {
        BracketReads(p.host, p.container);
      } else {
        PublicReads(p.host, p.container, p.proto);
      }
    }
  }

  /** An item that was found by its port is found again after the edit, and publishes where it was asked to. */
  lemma EditSaysWhatWasAsked(value: string, hostPort: nat, proto: string, action: Action)
    requires Matches(value, hostPort, proto)
    ensures var value' := Rewritten(value, ParseShort(value).value, action);
      Matches(value', hostPort, proto) && HostIPOf(ParseShort(value').value) == Asked(action)
  {
    var p := ParseShort(value).value;
    RewrittenReads(value, action);
    assert IsDigit(p.host[0]);
    NoVariable(value, action);
  }

  /** The edit brings no variable in. */
  lemma NoVariable(value: string, action: Action)
    requires ParseShort(value).Some? && '$' !in value
    ensures '$' !in Rewritten(value, ParseShort(value).value, action)
  {
    var p := ParseShort(value).value;
    PartsHaveNo(value, '$');
    NothingNewInFront(p, action, '$');
    NoVariableInProto(value);
    assert '$' !in "/" + p.proto;
  }

  lemma NoVariableInProto(value: string)
    requires '$' !in value
    ensures '$' !in PortText.CutProto(value).0
  {
    var i := LastIndexOf(value, '/');
    if i < |value| { assert '$' !in value[i + 1..]; }
  }

  /** out is line with the token at col replaced by a quoted item. */
  predicate Requoted(line: string, col: int, token: string, item: string, out: string) {
    && 0 <= col && col + |token| <= |line| && col + |item| + 2 <= |out|
    && out[..col] == line[..col] && line[col..col + |token|] == token
    && out[col] == '"' && out[col + 1..col + 1 + |item|] == item && out[col + 1 + |item|] == '"'
    && out[col + |item| + 2..] == line[col + |token|..]
  }

  lemma Requoting(line: string, col: nat, token: string, item: string)
    requires col < |line| && token <= line[col..]
    ensures Requoted(line, col, token, item, line[..col] + "\"" + item + "\"" + line[col + |token|..])
  {
  }

  /** On its line, exactly the item as it was written gives way to the new one in double quotes. */
  lemma RestOfLineStays(line: string, col: int, value: string, style: Style, action: Action)
    requires RewriteScalar(line, col, value, style, action).Some?
    ensures Requoted(line, col, Token(value, style), Rewritten(value, ParseShort(value).value, action), RewriteScalar(line, col, value, style, action).value)
  {
    Requoting(line, col, Token(value, style), Rewritten(value, ParseShort(value).value, action));
  }
}
