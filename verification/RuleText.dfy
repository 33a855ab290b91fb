/**
 A port rule as it is written (internal/firewall/ports.go): reading port
 ranges, and checking and normalising a rule. Reading a network stands for
 parsePrefix and its canonical text.
 */
module RuleText {
  import opened Basics
  import opened PortModel
  import opened Text

  // ---- port ranges

  /** strings.Replace(s, ":", "-", 1). */
  function Dashed(s: string): string {
    var i := IndexOf(s, ':');
    if i == |s| then s else s[..i] + "-" + s[i + 1..]
  }

  function Bounds(lo: Option<int>, hi: Option<int>): (r: Option<(int, int)>)
    ensures r.Some? ==> 1 <= r.value.0 <= r.value.1 <= 65535
  {
    if lo.None? || lo.value < 1 || lo.value > 65535 || hi.None? || hi.value < lo.value || hi.value > 65535 then None
    else Some((lo.value, hi.value))
  }

  /** One port, or both ends with a dash between them. */
  function RangeOf(t: string): (r: Option<(int, int)>)
    ensures r.Some? ==> 1 <= r.value.0 <= r.value.1 <= 65535
  {
    var i := IndexOf(t, '-');
    var lo := Atoi(TrimSpace(t[..i]));
    Bounds(lo, if i == |t| then lo else Atoi(TrimSpace(t[i + 1..])))
  }

  function PortRange(s: string): (r: Option<(int, int)>)
    ensures r.Some? ==> 1 <= r.value.0 <= r.value.1 <= 65535
  {
    RangeOf(Dashed(TrimSpace(s)))
  }

  /** The one way Validate writes a range. */
  function PortsText(lo: nat, hi: nat): string {
    if lo == hi then Itoa(lo) else Itoa(lo) + "-" + Itoa(hi)
  }

  lemma NumberStays(n: nat)
    requires n <= MAX_INT
    ensures TrimSpace(Itoa(n)) == Itoa(n) && ':' !in Itoa(n) && '-' !in Itoa(n) && Atoi(TrimSpace(Itoa(n))) == Some(n)
  {
    EndsTrimmed(Itoa(n));
  }

  /** A text without colons and with no space around it is taken as it is. */
  lemma TakenAsItIs(s: string)
    requires s != "" && !IsSpace(s[0]) && !IsSpace(s[|s| - 1]) && ':' !in s
    ensures Dashed(TrimSpace(s)) == s
  {
    EndsTrimmed(s);
    assert IndexOf(s, ':') == |s|;
  }

  lemma OnePortReadsBack(n: nat)
    requires 1 <= n <= 65535
    ensures PortRange(Itoa(n)) == Some((n, n))
  {
    var s := Itoa(n);
    NumberStays(n);
    TakenAsItIs(s);
    assert IndexOf(s, '-') == |s| && s[..|s|] == s;
  }

  /** The same with the colon that other tools put between the ends. */
  lemma ColonIsDash(a: string, b: string)
    requires a != "" && b != "" && !IsSpace(a[0]) && !IsSpace(b[|b| - 1]) && ':' !in a
    ensures Dashed(TrimSpace(a + ":" + b)) == a + "-" + b
  {
    var s := a + ":" + b;
    assert s[0] == a[0] && s[|s| - 1] == b[|b| - 1];
    EndsTrimmed(s);
    IndexOfFirst(a, ':', b);
    assert s[..|a|] == a && s[|a| + 1..] == b;
  }

  lemma PairSplits(a: string, b: string)
    requires '-' !in a
    ensures var s := a + "-" + b; IndexOf(s, '-') == |a| < |s| && s[..|a|] == a && s[|a| + 1..] == b
  {
    IndexOfFirst(a, '-', b);
  }

  lemma DashedPair(lo: nat, hi: nat)
    requires lo <= MAX_INT && hi <= MAX_INT
    ensures RangeOf(Itoa(lo) + "-" + Itoa(hi)) == if 1 <= lo <= hi <= 65535 then Some((lo, hi)) else None
  {
    NumberStays(lo);
    NumberStays(hi);
    PairSplits(Itoa(lo), Itoa(hi));
  }

  /** Two numbers with a dash or a colon between them are a range exactly when they are ports in order. */
  lemma PairReads(lo: nat, hi: nat)
    requires lo <= MAX_INT && hi <= MAX_INT
    ensures PortRange(Itoa(lo) + "-" + Itoa(hi)) == if 1 <= lo <= hi <= 65535 then Some((lo, hi)) else None
    ensures PortRange(Itoa(lo) + ":" + Itoa(hi)) == if 1 <= lo <= hi <= 65535 then Some((lo, hi)) else None
  {
    var a, b := Itoa(lo), Itoa(hi);
    var s := a + "-" + b;
    NumberStays(lo);
    NumberStays(hi);
    assert s[0] == a[0] && s[|s| - 1] == b[|b| - 1] && ':' !in s;
    TakenAsItIs(s);
    ColonIsDash(a, b);
    DashedPair(lo, hi);
  }

  /** What Validate writes is read back as the range it was read from. */
  lemma RangeReadsBack(lo: nat, hi: nat)
    requires 1 <= lo <= hi <= 65535
    ensures PortRange(PortsText(lo, hi)) == Some((lo, hi))
  {
    if lo == hi { OnePortReadsBack(lo); } else { PairReads(lo, hi); }
  }

  // ---- lists of sources and addresses

  /** What one entry of a list is read as. */
  datatype Item = Blank | Bad | Good(text: string)

  type Reader = string -> Item

  /** The good entries in order, each once; nothing when one is bad. */
  function Gather(list: seq<string>, read: Reader): Option<seq<string>> {
    if list == [] then Some([])
    else
      var rest, item := Gather(list[..|list| - 1], read), read(list[|list| - 1]);
      if rest.None? || item.Bad? then None
      else if item.Blank? || item.text in rest.value then rest
      else Some(rest.value + [item.text])
  }

  lemma {:induction false} BadStays(list: seq<string>, read: Reader, i: nat)
    requires i <= |list| && Gather(list[..i], read).None?
    ensures Gather(list, read).None?
  {
    if i < |list| {
      assert list[..|list| - 1][..i] == list[..i];
      BadStays(list[..|list| - 1], read, i);
    } else {
      assert list[..i] == list;
    }
  }

  predicate Distinct(list: seq<string>) {
    forall i, j :: 0 <= i < j < |list| ==> list[i] != list[j]
  }

  /** Exactly what the good entries are read as, without repeats; no entry is bad. */
  lemma {:induction false} GatherIsTidy(list: seq<string>, read: Reader)
    requires Gather(list, read).Some?
    ensures var out := Gather(list, read).value;
      && Distinct(out)
      && (forall t :: t in out ==> exists s :: s in list && read(s) == Good(t))
      && (forall s :: s in list ==> !read(s).Bad? && (read(s).Good? ==> read(s).text in out))
  {
    if list == [] {
    } else {
      var init, s := list[..|list| - 1], list[|list| - 1];
      assert list == init + [s];
      GatherIsTidy(init, read);
      forall t | t in Gather(list, read).value ensures exists s :: s in list && read(s) == Good(t) {
        if t in Gather(init, read).value {
          var s' :| s' in init && read(s') == Good(t);
          assert s' in list;
        } else {
          assert s in list && read(s) == Good(t);
        }
      }
    }
  }

  lemma {:induction false} GatherShrinks(list: seq<string>, read: Reader)
    requires Gather(list, read).Some?
    ensures |Gather(list, read).value| <= |list| && Distinct(Gather(list, read).value)
  {
    if list == [] {
    } else {
      GatherShrinks(list[..|list| - 1], read);
    }
  }

  /** A list is left as it is exactly when it has no repeats and each entry is read as itself. */
  lemma {:induction false} GatherFixedIff(list: seq<string>, read: Reader)
    ensures Gather(list, read) == Some(list) <==> Distinct(list) && forall t :: t in list ==> read(t) == Good(t)
  {
    if list == [] {
    } else {
      var init, s := list[..|list| - 1], list[|list| - 1];
      assert list == init + [s] && s in list;
      GatherFixedIff(init, read);
      if Gather(init, read).Some? { GatherShrinks(init, read); }
      if Gather(list, read) == Some(list) {
        assert Gather(init, read).value == init;
      }
    }
  }

  // ---- a whole rule

  const MAX_SOURCES := 256
  const MAX_ADDRESSES := 64
  const PRIVATE_KEYWORD := "private"

  datatype Fields = Fields(id: string, proto: string, ports: string, mode: string, sources: seq<string>, addresses: seq<string>)

  predicate IdOk(id: string) {
    1 <= |id| <= 16 && forall i :: 0 <= i < |id| ==> 'a' <= id[i] <= 'z' || IsDigit(id[i])
  }

  function NormalProto(s: string): Option<string> {
    var t := Lower(TrimSpace(s));
    if t == "" then Some("tcp") else if t == "tcp" || t == "udp" || t == "both" then Some(t) else None
  }

  function AddressReader(prefix: string -> Option<string>): Reader {
    (s: string) =>
      var t := TrimSpace(s);
      if t == "" then Blank
      else match prefix(t) case Some(p) => Good(p) case None => Bad
  }

  function SourceReader(prefix: string -> Option<string>): Reader {
    (s: string) => if TrimSpace(s) == PRIVATE_KEYWORD then Good(PRIVATE_KEYWORD) else AddressReader(prefix)(s)
  }

  /** The protocol and the ports as Validate writes them, if it accepts them, the id and the mode. */
  function Head(r: Fields): Option<(string, string)> {
    var proto, range := NormalProto(r.proto), PortRange(r.ports);
    if !IdOk(r.id) || proto.None? || range.None? || (r.mode != "allow" && r.mode != "deny") then None
    else Some((proto.value, PortsText(range.value.0, range.value.1)))
  }

  /** The two lists as Validate writes them, if it accepts them. */
  function Lists(r: Fields, prefix: string -> Option<string>): Option<(seq<string>, seq<string>)> {
    var sources, addresses := Gather(r.sources, SourceReader(prefix)), Gather(r.addresses, AddressReader(prefix));
    if sources.None? || (r.mode == "deny" && sources.value == []) || |sources.value| > MAX_SOURCES then None
    else if addresses.None? || |addresses.value| > MAX_ADDRESSES then None
    else Some((sources.value, addresses.value))
  }

  function Written(r: Fields, head: Option<(string, string)>, lists: Option<(seq<string>, seq<string>)>): Option<Fields> {
    if head.None? || lists.None? then None
    else Some(r.(proto := head.value.0, ports := head.value.1, sources := lists.value.0, addresses := lists.value.1))
  }

  /** The rule as Validate leaves it, if it accepts it. */
  function Checked(r: Fields, prefix: string -> Option<string>): Option<Fields> {
    Written(r, Head(r), Lists(r, prefix))
  }

  /** What the good entries of a list are read as. */
  ghost function Texts(list: seq<string>, read: Reader): set<string> {
    set s | s in list && read(s).Good? :: read(s).text
  }

  lemma {:induction false} DistinctCount(out: seq<string>)
    requires Distinct(out)
    ensures |set t | t in out| == |out|
  {
    if out == [] {
    } else {
      var n := |out| - 1;
      DistinctCount(out[..n]);
      assert out == out[..n] + [out[n]];
      assert (set t | t in out) == (set t | t in out[..n]) + {out[n]};
      assert out[n] !in out[..n];
    }
  }

  lemma {:induction false} GatherAcceptsIff(list: seq<string>, read: Reader)
    ensures Gather(list, read).Some? <==> forall s :: s in list ==> !read(s).Bad?
    ensures Gather(list, read).Some? ==> |Gather(list, read).value| == |Texts(list, read)|
  {
    AllReadIff(list, read);
    if Gather(list, read).Some? {
      GatherIsTidy(list, read);
      var out := Gather(list, read).value;
      assert (set t | t in out) == Texts(list, read);
      DistinctCount(out);
    }
  }

  lemma {:induction false} AllReadIff(list: seq<string>, read: Reader)
    ensures Gather(list, read).Some? <==> forall s :: s in list ==> !read(s).Bad?
  {
    if list == [] {
    } else {
      var n := |list| - 1;
      AllReadIff(list[..n], read);
      assert list == list[..n] + [list[n]];
    }
  }

  /** An entry that says something is a network, or among sources the keyword. */
  predicate Reads(s: string, keyword: bool, prefix: string -> Option<string>) {
    var t := TrimSpace(s);
    t == "" || (keyword && t == "private") || prefix(t).Some?
  }

  lemma ListsAcceptIff(r: Fields, prefix: string -> Option<string>)
    ensures Lists(r, prefix).Some? <==>
      && (forall s :: s in r.sources ==> Reads(s, true, prefix))
      && (forall s :: s in r.addresses ==> Reads(s, false, prefix))
      && (r.mode == "deny" ==> exists s :: s in r.sources && TrimSpace(s) != "")
      && |Texts(r.sources, SourceReader(prefix))| <= 256 && |Texts(r.addresses, AddressReader(prefix))| <= 64
  {
    GatherAcceptsIff(r.sources, SourceReader(prefix));
    GatherAcceptsIff(r.addresses, AddressReader(prefix));
    forall s ensures Reads(s, true, prefix) <==> !SourceReader(prefix)(s).Bad? { SourceItem(s, prefix); }
    forall s ensures Reads(s, false, prefix) <==> !AddressReader(prefix)(s).Bad? { SourceItem(s, prefix); }
    if Gather(r.sources, SourceReader(prefix)).Some? {
      SomeSourceIff(r.sources, prefix);
    }
  }

  lemma SourceItem(s: string, prefix: string -> Option<string>)
    ensures SourceReader(prefix)(s).Blank? <==> TrimSpace(s) == ""
    ensures SourceReader(prefix)(s).Bad? <==> !Reads(s, true, prefix)
    ensures AddressReader(prefix)(s).Bad? <==> !Reads(s, false, prefix)
  {
    assert SourceReader(prefix)(s) == if TrimSpace(s) == PRIVATE_KEYWORD then Good(PRIVATE_KEYWORD) else AddressReader(prefix)(s);
  }

  lemma SomeSourceIff(list: seq<string>, prefix: string -> Option<string>)
    requires Gather(list, SourceReader(prefix)).Some?
    ensures Gather(list, SourceReader(prefix)).value != [] <==> exists s :: s in list && TrimSpace(s) != ""
  {
    var read := SourceReader(prefix);
    var out := Gather(list, read).value;
    GatherIsTidy(list, read);
    if s :| s in list && TrimSpace(s) != "" {
      SourceItem(s, prefix);
      assert read(s).text in out;
    }
    if out != [] {
      assert out[0] in out;
      var s :| s in list && read(s) == Good(out[0]);
      SourceItem(s, prefix);
    }
  }

  lemma IdOkIff(id: string)
    ensures IdOk(id) <==> 1 <= |id| <= 16 && forall c :: c in id ==> 'a' <= c <= 'z' || '0' <= c <= '9'
  {
    if IdOk(id) {
      forall c | c in id ensures 'a' <= c <= 'z' || '0' <= c <= '9' {
        var i :| 0 <= i < |id| && id[i] == c;
      }
    }
    assert forall i :: 0 <= i < |id| ==> id[i] in id;
  }

  /** The whole check in terms of what is entered: exactly these rules are accepted. */
  lemma AcceptedIff(r: Fields, prefix: string -> Option<string>)
    ensures Checked(r, prefix).Some? <==>
      && 1 <= |r.id| <= 16 && (forall c :: c in r.id ==> 'a' <= c <= 'z' || '0' <= c <= '9')
      && Lower(TrimSpace(r.proto)) in {"", "tcp", "udp", "both"}
      && PortRange(r.ports).Some? && r.mode in {"allow", "deny"}
      && (forall s :: s in r.sources ==> Reads(s, true, prefix))
      && (forall s :: s in r.addresses ==> Reads(s, false, prefix))
      && (r.mode == "deny" ==> exists s :: s in r.sources && TrimSpace(s) != "")
      && |Texts(r.sources, SourceReader(prefix))| <= 256 && |Texts(r.addresses, AddressReader(prefix))| <= 64
  {
    ListsAcceptIff(r, prefix);
    IdOkIff(r.id);
  }

  /** An accepted rule keeps its id and mode and means the same ports and protocol; GatherIsTidy says what becomes of its lists. */
  lemma AcceptedAs(r: Fields, prefix: string -> Option<string>)
    requires Checked(r, prefix).Some?
    ensures var v := Checked(r, prefix).value;
      && v.id == r.id && v.mode == r.mode && PortRange(v.ports) == PortRange(r.ports)
      && v.proto == if Lower(TrimSpace(r.proto)) == "" then "tcp" else Lower(TrimSpace(r.proto))
  {
    var range := PortRange(r.ports).value;
    RangeReadsBack(range.0, range.1);
  }

  lemma ProtoSettles(s: string)
    requires NormalProto(s).Some?
    ensures NormalProto(NormalProto(s).value) == NormalProto(s)
  {
    var t := NormalProto(s).value;
    EndsTrimmed(t);
  }

  lemma HeadTwice(r: Fields)
    requires Head(r).Some?
    ensures Head(r.(proto := Head(r).value.0, ports := Head(r).value.1)) == Head(r)
  {
    var range := PortRange(r.ports).value;
    ProtoSettles(r.proto);
    RangeReadsBack(range.0, range.1);
  }

  /** Each network a validated rule names is read as it is written there. */
  ghost predicate ReadAsWritten(v: Fields, prefix: string -> Option<string>) {
    && (forall t :: t in v.sources ==> SourceReader(prefix)(t) == Good(t))
    && (forall t :: t in v.addresses ==> AddressReader(prefix)(t) == Good(t))
  }

  lemma {:induction false} ListsTwice(r: Fields, prefix: string -> Option<string>)
    requires Lists(r, prefix).Some?
    ensures var v := r.(sources := Lists(r, prefix).value.0, addresses := Lists(r, prefix).value.1);
      Lists(v, prefix) == Lists(r, prefix) <==> ReadAsWritten(v, prefix)
  {
    var (sources, addresses) := Lists(r, prefix).value;
    GatherShrinks(r.sources, SourceReader(prefix));
    GatherShrinks(r.addresses, AddressReader(prefix));
    GatherFixedIff(sources, SourceReader(prefix));
    GatherFixedIff(addresses, AddressReader(prefix));
  }

  lemma ListsIgnoreHead(r: Fields, proto: string, ports: string, prefix: string -> Option<string>)
    ensures Lists(r.(proto := proto, ports := ports), prefix) == Lists(r, prefix)
  {
  }

  lemma {:induction false} CheckedTwiceAsRead(r: Fields, prefix: string -> Option<string>)
    ensures Checked(r, prefix).Some? ==>
      (Checked(Checked(r, prefix).value, prefix) == Checked(r, prefix) <==> ReadAsWritten(Checked(r, prefix).value, prefix))
  {
    if Checked(r, prefix).Some? {
      var ((proto, ports), (sources, addresses)) := (Head(r).value, Lists(r, prefix).value);
      var q, l := r.(proto := proto, ports := ports), r.(sources := sources, addresses := addresses);
      assert Checked(r, prefix).value == q.(sources := sources, addresses := addresses) == l.(proto := proto, ports := ports);
      HeadTwice(r);
      ListsTwice(r, prefix);
      ListsIgnoreHead(l, proto, ports, prefix);
    }
  }

  // ---- which networks are written differently the second time

  /** How networks are read and printed. */
  datatype Notation = Notation(read: string -> Entry, write: Entry -> string)

  /** A network that is written is read as itself, has nothing to trim and is not the keyword. */
  predicate PrintsFaithfully(n: Notation, e: Entry) {
    && n.read(n.write(e)) == e
    && n.write(e) != "" && TrimSpace(n.write(e)) == n.write(e) && n.write(e) != PRIVATE_KEYWORD
  }

  /** So is every network that Validate writes; neither the keyword nor nothing is a network. */
  ghost predicate Faithful(n: Notation) {
    && (forall s :: Normal(n.read(s)).Some? ==> PrintsFaithfully(n, Normal(n.read(s)).value))
    && n.read(PRIVATE_KEYWORD).Unreadable? && n.read("").Unreadable?
  }

  /** parsePrefix and the canonical text of what it reads. */
  function PrefixText(n: Notation): string -> Option<string> {
    (s: string) => match Normal(n.read(s)) case Some(e) => Some(n.write(e)) case None => None
  }

  /** A mapped address with its full length. */
  predicate FullMapped(e: Entry) {
    e.Slash? && e.bits == 128 && Mapped(e.a)
  }

  lemma WrittenTwiceIff(n: Notation, s: string)
    requires Faithful(n) && Normal(n.read(s)).Some?
    ensures var t := n.write(Normal(n.read(s)).value);
      && (AddressReader(PrefixText(n))(t) == Good(t) <==> !FullMapped(n.read(s)))
      && (SourceReader(PrefixText(n))(t) == Good(t) <==> !FullMapped(n.read(s)))
  {
    var e := Normal(n.read(s)).value;
    var t := n.write(e);
    assert PrintsFaithfully(n, e);
    NormalTwiceIff(n.read(s));
    assert Normal(n.read(t)) == Normal(e);
    if Normal(e).Some? {
      assert PrintsFaithfully(n, Normal(n.read(t)).value);
    }
  }

  /** The entry is written so that it is read again as itself exactly when it is no mapped address with its full length. */
  predicate WritesBack(n: Notation, read: Reader, s: string) {
    var full := FullMapped(n.read(TrimSpace(s)));
    (read(s).Good? ==> (read(read(s).text) == read(s) <==> !full)) && (full ==> read(s).Good?)
  }

  lemma AddressWritesBack(n: Notation, s: string)
    requires Faithful(n)
    ensures WritesBack(n, AddressReader(PrefixText(n)), s)
  {
    if AddressReader(PrefixText(n))(s).Good? { WrittenTwiceIff(n, TrimSpace(s)); }
  }

  lemma SourceWritesBack(n: Notation, s: string)
    requires Faithful(n)
    ensures WritesBack(n, SourceReader(PrefixText(n)), s)
  {
    KeywordStays(n);
    var read := SourceReader(PrefixText(n));
    if TrimSpace(s) == PRIVATE_KEYWORD {
      assert read(s) == Good(PRIVATE_KEYWORD) && read(PRIVATE_KEYWORD) == Good(PRIVATE_KEYWORD);
    } else {
      assert read(s) == AddressReader(PrefixText(n))(s);
      AddressWritesBack(n, s);
      if read(s).Good? { WrittenTwiceIff(n, TrimSpace(s)); }
    }
  }

  lemma ListReadAsWrittenIff(list: seq<string>, n: Notation, read: Reader)
    requires Gather(list, read).Some? && forall s :: s in list ==> WritesBack(n, read, s)
    ensures (forall t :: t in Gather(list, read).value ==> read(t) == Good(t)) <==>
      (forall s :: s in list ==> !FullMapped(n.read(TrimSpace(s))))
  {
    GatherIsTidy(list, read);
    var out := Gather(list, read).value;
    forall t | t in out ensures exists s :: s in list && read(s) == Good(t) && (read(t) == Good(t) <==> !FullMapped(n.read(TrimSpace(s)))) {
      var s :| s in list && read(s) == Good(t);
      assert WritesBack(n, read, s);
    }
    forall s | s in list && FullMapped(n.read(TrimSpace(s))) ensures read(s).Good? && read(s).text in out && read(read(s).text) != read(s) {
      assert WritesBack(n, read, s);
    }
  }

  lemma KeywordStays(n: Notation)
    ensures SourceReader(PrefixText(n))(PRIVATE_KEYWORD) == Good(PRIVATE_KEYWORD)
  {
    EndsTrimmed(PRIVATE_KEYWORD);
  }

  /** The rule as it is entered names no mapped address with its full length. */
  predicate NamesNoFullMapped(r: Fields, n: Notation) {
    && (forall s :: s in r.sources ==> !FullMapped(n.read(TrimSpace(s))))
    && (forall s :: s in r.addresses ==> !FullMapped(n.read(TrimSpace(s))))
  }

  /** Checking a rule again changes nothing exactly when it names no mapped address with its full length. */
  lemma {:induction false} CheckedTwiceIff(r: Fields, n: Notation)
    requires Faithful(n)
    ensures var prefix := PrefixText(n);
      Checked(r, prefix).Some? ==> (Checked(Checked(r, prefix).value, prefix) == Checked(r, prefix) <==> NamesNoFullMapped(r, n))
  {
    var prefix := PrefixText(n);
    if Checked(r, prefix).Some? {
      CheckedTwiceAsRead(r, prefix);
      forall s | s in r.sources ensures WritesBack(n, SourceReader(prefix), s) { SourceWritesBack(n, s); }
      forall s | s in r.addresses ensures WritesBack(n, AddressReader(prefix), s) { AddressWritesBack(n, s); }
      ListReadAsWrittenIff(r.sources, n, SourceReader(prefix));
      ListReadAsWrittenIff(r.addresses, n, AddressReader(prefix));
    }
  }

  const FULL_TEXT := "::ffff:1.2.3.4/128"
  const MAPPED_TEXT := "::ffff:1.2.3.4"
  const PLAIN_TEXT := "1.2.3.4"

  /** How the three texts are read and printed. */
  function ThreeTexts(): Notation {
    var mapped := Addr(true, MAPPED + 0x0102_0304);
    Notation(
      (s: string) =>
        if s == FULL_TEXT then Slash(mapped, 128)
        else if s == MAPPED_TEXT then Bare(mapped)
        else if s == PLAIN_TEXT then Bare(Unmap(mapped))
        else Unreadable(s),
      (e: Entry) => if e == Bare(mapped) then MAPPED_TEXT else PLAIN_TEXT)
  }

  lemma OneEntry(s: string, t: string, read: Reader)
    requires read(s) == Good(t)
    ensures Gather([s], read) == Some([t])
  {
    var list := [s];
    assert list[..|list| - 1] == [] && Gather([], read) == Some([]);
    var out: seq<string> := [] + [t];
    assert out == [t];
  }

  lemma SourceRead(s: string, t: string, prefix: string -> Option<string>)
    requires s != "" && s[0] == ':' && !IsSpace(s[|s| - 1]) && prefix(s) == Some(t)
    ensures SourceReader(prefix)(s) == Good(t)
  {
    EndsTrimmed(s);
    assert s != PRIVATE_KEYWORD by { assert PRIVATE_KEYWORD[0] == 'p'; }
    assert AddressReader(prefix)(s) == Good(t);
  }

  lemma ThreeReadings()
    ensures SourceReader(PrefixText(ThreeTexts()))(FULL_TEXT) == Good(MAPPED_TEXT)
    ensures SourceReader(PrefixText(ThreeTexts()))(MAPPED_TEXT) == Good(PLAIN_TEXT)
  {
    assert |FULL_TEXT| != |MAPPED_TEXT|;
    SourceRead(FULL_TEXT, MAPPED_TEXT, PrefixText(ThreeTexts()));
    SourceRead(MAPPED_TEXT, PLAIN_TEXT, PrefixText(ThreeTexts()));
  }

  lemma TcpStays()
    ensures NormalProto("tcp") == Some("tcp")
  {
    EndsTrimmed("tcp");
  }

  lemma HeadStays(r: Fields)
    requires r.id == "a" && r.proto == "tcp" && r.ports == Itoa(22) && r.mode == "allow"
    ensures Head(r) == Some(("tcp", r.ports))
  {
    OnePortReadsBack(22);
    TcpStays();
    assert PortsText(22, 22) == Itoa(22) && IdOk("a");
  }

  /** Validating a rule for ::ffff:1.2.3.4/128 leaves ::ffff:1.2.3.4, and validating that leaves 1.2.3.4. */
  lemma ValidatedTwiceExample()
    ensures var r, prefix := Fields("a", "tcp", Itoa(22), "allow", [FULL_TEXT], []), PrefixText(ThreeTexts());
      var v := r.(sources := [MAPPED_TEXT]);
      Checked(r, prefix) == Some(v) && Checked(v, prefix) == Some(r.(sources := [PLAIN_TEXT]))
  {
    var r, prefix := Fields("a", "tcp", Itoa(22), "allow", [FULL_TEXT], []), PrefixText(ThreeTexts());
    HeadStays(r);
    HeadStays(r.(sources := [MAPPED_TEXT]));
    ThreeReadings();
    OneEntry(FULL_TEXT, MAPPED_TEXT, SourceReader(prefix));
    OneEntry(MAPPED_TEXT, PLAIN_TEXT, SourceReader(prefix));
    assert Gather([], AddressReader(prefix)) == Some([]);
  }

  /** Two validated rules have the same port text exactly when they have the same ports. */
  lemma {:induction false} PortsTextIff(r: Fields, q: Fields, prefix: string -> Option<string>)
    ensures Checked(r, prefix).Some? && Checked(q, prefix).Some? ==>
      (Checked(r, prefix).value.ports == Checked(q, prefix).value.ports <==> PortRange(r.ports) == PortRange(q.ports))
  {
    if Checked(r, prefix).Some? && Checked(q, prefix).Some? {
      var a, b := PortRange(r.ports).value, PortRange(q.ports).value;
      RangeReadsBack(a.0, a.1);
      RangeReadsBack(b.0, b.1);
    }
  }

  class Rule {
    var id: string
    var proto: string
    var ports: string
    var mode: string
    var sources: seq<string>
    var addresses: seq<string>

    function Abstract(): Fields
      reads this
    {
      Fields(id, proto, ports, mode, sources, addresses)
    }

    constructor (r: Fields)
      ensures Abstract() == r
    {
      id, proto, ports, mode, sources, addresses := r.id, r.proto, r.ports, r.mode, r.sources, r.addresses;
    }

    method NormaliseHead() returns (ok: bool)
      modifies this`proto, this`ports
      ensures ok <==> Head(old(Abstract())).Some?
      ensures ok ==> (proto, ports) == Head(old(Abstract())).value
    {
      if !IdOk(id) {
        return false;
      }
      var p, range := NormalProto(proto), PortRange(ports);
      if p.None? || range.None? {
        return false;
      }
      proto, ports := p.value, PortsText(range.value.0, range.value.1);
      return mode == "allow" || mode == "deny";
    }

    method NormaliseLists(prefix: string -> Option<string>) returns (ok: bool)
      modifies this`sources, this`addresses
      ensures ok <==> Lists(old(Abstract()), prefix).Some?
      ensures ok ==> (sources, addresses) == Lists(old(Abstract()), prefix).value
    {
      var list := Collect(sources, SourceReader(prefix));
      if list.None? || (mode == "deny" && list.value == []) || |list.value| > MAX_SOURCES {
        return false;
      }
      sources := list.value;
      list := Collect(addresses, AddressReader(prefix));
      if list.None? || |list.value| > MAX_ADDRESSES {
        return false;
      }
      addresses := list.value;
      return true;
    }

    /** Checks and normalises the rule in place. */
    method Validate(prefix: string -> Option<string>) returns (ok: bool)
      modifies this
      ensures ok <==> Checked(old(Abstract()), prefix).Some?
      ensures ok ==> Abstract() == Checked(old(Abstract()), prefix).value
    {
      ok := NormaliseHead();
      if ok {
        ListsIgnoreHead(old(Abstract()), proto, ports, prefix);
        ok := NormaliseLists(prefix);
      }
    }
  }

  method Collect(list: seq<string>, read: Reader) returns (r: Option<seq<string>>)
    ensures r == Gather(list, read)
  {
    var out: seq<string> := [];
    var seen: set<string> := {};
    for i := 0 to |list|
      invariant Gather(list[..i], read) == Some(out) && forall t :: t in seen <==> t in out
    {
      assert list[..i + 1][..i] == list[..i];
      var item := read(list[i]);
      if item.Blank? {
        continue;
      }
      if item.Bad? {
        BadStays(list, read, i + 1);
        return None;
      }
      if item.text !in seen {
        seen := seen + {item.text};
        out := out + [item.text];
      }
    }
    assert list[..|list|] == list;
    return Some(out);
  }
}
