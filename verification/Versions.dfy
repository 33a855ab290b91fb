/**
 The order of versions and the choice of the newest release
 (internal/update/version.go, internal/update/github.go): reading and printing
 versions, comparing them as the program does and as section 11 of Semantic
 Versioning 2.0.0 says.
 */
module Versions {
  import opened Basics
  import opened Text

  datatype Version = Version(core: seq<nat>, pre: string)

  function TrimPrefixV(s: string): string {
    if s != [] && s[0] == 'v' then s[1..] else s
  }

  function Before(s: string, c: char): string {
    s[..IndexOf(s, c)]
  }

  function After(s: string, c: char): string {
    var i := IndexOf(s, c);
    if i == |s| then "" else s[i + 1..]
  }

  /** Every part is a number that is not negative. */
  function Numbers(parts: seq<string>): Option<seq<nat>> {
    if parts == [] then Some([])
    else
      var rest, n := Numbers(parts[..|parts| - 1]), Atoi(parts[|parts| - 1]);
      if rest.None? || n.None? || n.value < 0 then None else Some(rest.value + [n.value])
  }

  /** Past the trimming, the leading v and the build metadata. */
  function ParseCore(s: string): Option<Version> {
    var parts := Split(Before(s, '-'), '.');
    var core := Numbers(parts);
    if |parts| != 3 || core.None? then None else Some(Version(core.value, After(s, '-')))
  }

  function ParseSpec(v: string): Option<Version> {
    ParseCore(Before(TrimPrefixV(TrimSpace(v)), '+'))
  }

  method ParseNumbers(parts: seq<string>) returns (r: Option<seq<nat>>)
    ensures r == Numbers(parts)
  {
    var core := [];
    for k := 0 to |parts|
      invariant Numbers(parts[..k]) == Some(core)
    {
      assert parts[..k + 1][..k] == parts[..k];
      var n := Atoi(parts[k]);
      if n.None? || n.value < 0 {
        NumbersFail(parts, k + 1);
        return None;
      }
      core := core + [n.value];
    }
    assert parts[..|parts|] == parts;
    return Some(core);
  }

  method Parse(v: string) returns (r: Option<Version>)
    ensures r == ParseSpec(v)
  {
    var s := TrimPrefixV(TrimSpace(v));
    s := Before(s, '+');
    var main, pre := Before(s, '-'), After(s, '-');
    var parts := Split(main, '.');
    if |parts| != 3 {
      return None;
    }
    var core := ParseNumbers(parts);
    return if core.None? then None else Some(Version(core.value, pre));
  }

  lemma {:induction false} NumbersFail(parts: seq<string>, k: nat)
    requires k <= |parts| && Numbers(parts[..k]).None?
    ensures Numbers(parts).None?
    decreases |parts| - k
  {
    if k == |parts| {
      assert parts[..k] == parts;
    } else {
      assert parts[..k + 1][..k] == parts[..k];
      NumbersFail(parts, k + 1);
    }
  }

  // ---- what is parsed

  /** The text of a version. */
  function ShowVersion(v: Version): string
    requires |v.core| == 3
  {
    (Itoa(v.core[0]) + "." + (Itoa(v.core[1]) + "." + Itoa(v.core[2]))) + if v.pre == "" then "" else "-" + v.pre
  }

  predicate Printable(v: Version) {
    |v.core| == 3 && (forall i :: 0 <= i < 3 ==> v.core[i] <= MAX_INT) && '+' !in v.pre
  }

  lemma {:induction false} NumbersReadBack(texts: seq<string>, ns: seq<nat>)
    requires |texts| == |ns| && forall i :: 0 <= i < |ns| ==> ns[i] <= MAX_INT && texts[i] == Itoa(ns[i])
    ensures Numbers(texts) == Some(ns)
  {
    if texts == [] {
    } else {
      var k := |ns| - 1;
      NumbersReadBack(texts[..k], ns[..k]);
      AtoiOfItoa(ns[k]);
      assert Atoi(texts[k]) == Some(ns[k]) && Numbers(texts[..k]) == Some(ns[..k]);
      assert ns[..k] + [ns[k]] == ns;
    }
  }

  lemma ThreeParts(x: string, y: string, z: string)
    requires '.' !in x && '.' !in y && '.' !in z
    ensures Split(x + "." + (y + "." + z), '.') == [x, y, z]
  {
    SplitFirst(x, '.', y + "." + z);
    SplitFirst(y, '.', z);
    SplitNone(z, '.');
  }

  /** What stands before and behind the first '-'. */
  lemma DashSplits(core: string, pre: string)
    requires '-' !in core
    ensures var s := core + if pre == "" then "" else "-" + pre; Before(s, '-') == core && After(s, '-') == pre
  {
    if pre == "" {
      assert core + "" == core && IndexOf(core, '-') == |core|;
    } else {
      IndexOfFirst(core, '-', pre);
      assert core + ("-" + pre) == core + "-" + pre;
    }
  }

  lemma PlusCuts(s: string, meta: Option<string>)
    requires '+' !in s
    ensures Before(s + (if meta.Some? then "+" + meta.value else ""), '+') == s
  {
    if meta.Some? {
      IndexOfFirst(s, '+', meta.value);
      assert s + ("+" + meta.value) == s + "+" + meta.value;
    } else {
      assert s + "" == s;
    }
  }

  function Dressed(s: string, lead: bool, meta: Option<string>): string {
    (if lead then "v" else "") + (s + (if meta.Some? then "+" + meta.value else ""))
  }

  lemma VGoes(s: string, lead: bool)
    requires s != "" && s[0] != 'v'
    ensures TrimPrefixV((if lead then "v" else "") + s) == s
  {
    if lead { assert ("v" + s)[1..] == s; } else { assert "" + s == s; }
  }

  lemma Undressed(s: string, lead: bool, meta: Option<string>)
    requires s != "" && s[0] != 'v' && !IsSpace(s[0]) && '+' !in s
    requires !IsSpace(Dressed(s, lead, meta)[|Dressed(s, lead, meta)| - 1])
    ensures Before(TrimPrefixV(TrimSpace(Dressed(s, lead, meta))), '+') == s
  {
    var text := Dressed(s, lead, meta);
    var rest := s + (if meta.Some? then "+" + meta.value else "");
    assert text[0] == (if lead then 'v' else s[0]) && rest[0] == s[0];
    EndsTrimmed(text);
    VGoes(rest, lead);
    PlusCuts(s, meta);
  }

  /** A leading v and build metadata change nothing. */
  lemma ParseIgnores(s: string, lead: bool, meta: Option<string>)
    requires s != "" && s[0] != 'v' && !IsSpace(s[0]) && '+' !in s
    requires !IsSpace(s[|s| - 1]) && !IsSpace(Dressed(s, lead, meta)[|Dressed(s, lead, meta)| - 1])
    ensures ParseSpec(Dressed(s, lead, meta)) == ParseSpec(s)
  {
    Undressed(s, lead, meta);
    assert Dressed(s, false, None) == s;
    Undressed(s, false, None);
  }

  lemma CoreReadsBack(a: nat, b: nat, c: nat)
    requires a <= MAX_INT && b <= MAX_INT && c <= MAX_INT
    ensures Split(Itoa(a) + "." + (Itoa(b) + "." + Itoa(c)), '.') == [Itoa(a), Itoa(b), Itoa(c)]
    ensures Numbers([Itoa(a), Itoa(b), Itoa(c)]) == Some([a, b, c])
  {
    ThreeParts(Itoa(a), Itoa(b), Itoa(c));
    NumbersReadBack([Itoa(a), Itoa(b), Itoa(c)], [a, b, c]);
  }

  lemma ShowParses(v: Version)
    requires Printable(v)
    ensures ParseCore(ShowVersion(v)) == Some(v)
  {
    var a, b, c := v.core[0], v.core[1], v.core[2];
    DashSplits(Itoa(a) + "." + (Itoa(b) + "." + Itoa(c)), v.pre);
    CoreReadsBack(a, b, c);
    assert v.core == [a, b, c];
  }

  /** A printed version is read back, with or without a leading v and whatever build metadata follows it. */
  lemma VersionReadsBack(v: Version, lead: bool, meta: Option<string>)
    requires Printable(v)
    requires var text := Dressed(ShowVersion(v), lead, meta); !IsSpace(text[|text| - 1])
    ensures ParseSpec(Dressed(ShowVersion(v), lead, meta)) == Some(v)
  {
    var s := ShowVersion(v);
    assert s[0] == Itoa(v.core[0])[0];
    assert '+' !in s;
    Undressed(s, lead, meta);
    ShowParses(v);
  }

  lemma {:induction false} NumbersFit(parts: seq<string>)
    requires Numbers(parts).Some?
    ensures |Numbers(parts).value| == |parts| && forall i :: 0 <= i < |parts| ==> Numbers(parts).value[i] <= MAX_INT
  {
    if parts == [] {
    } else {
      NumbersFit(parts[..|parts| - 1]);
    }
  }

  /** What parses is a version that can be printed. */
  lemma ParsedIsPrintable(v: string)
    requires ParseSpec(v).Some?
    ensures Printable(ParseSpec(v).value)
  {
    var s := Before(TrimPrefixV(TrimSpace(v)), '+');
    NumbersFit(Split(Before(s, '-'), '.'));
    assert '+' !in s;
  }

  // ---- comparing

  /** Two identifiers of a pre-release: numbers by value and below text, text by character. */
  function CompareIds(a: string, b: string): (c: int)
    ensures -1 <= c <= 1
  {
    if a == b then 0
    else match (Atoi(a), Atoi(b))
      case (Some(x), Some(y)) => if x < y then -1 else 1
      case (Some(_), None) => -1
      case (None, Some(_)) => 1
      case (None, None) => if StrLess(a, b) then -1 else 1
  }

  function ComparePre(a: seq<string>, b: seq<string>): (c: int)
    ensures -1 <= c <= 1
  {
    if a == [] || b == [] then (if |a| < |b| then -1 else if |a| > |b| then 1 else 0)
    else if a[0] == b[0] then ComparePre(a[1..], b[1..])
    else CompareIds(a[0], b[0])
  }

  function CompareCore(a: seq<nat>, b: seq<nat>): (c: int)
    requires |a| == |b|
    ensures -1 <= c <= 1
  {
    if a == [] then 0 else if a[0] != b[0] then (if a[0] < b[0] then -1 else 1) else CompareCore(a[1..], b[1..])
  }

  lemma NumbersLength(parts: seq<string>)
    ensures Numbers(parts).Some? ==> |Numbers(parts).value| == |parts|
  {
  }

  function CompareVersions(x: Version, y: Version): (c: int)
    requires |x.core| == |y.core|
    ensures -1 <= c <= 1
  {
    var core := CompareCore(x.core, y.core);
    if core != 0 then core
    else if x.pre == y.pre then 0
    else if x.pre == "" then 1
    else if y.pre == "" then -1
    else ComparePre(Split(x.pre, '.'), Split(y.pre, '.'))
  }

  function Compare(a: string, b: string): (c: int)
    ensures -1 <= c <= 1
  {
    match (ParseSpec(a), ParseSpec(b))
    case (None, None) => 0
    case (None, Some(_)) => -1
    case (Some(_), None) => 1
    case (Some(x), Some(y)) =>
      NumbersLength(Split(Before(Before(TrimPrefixV(TrimSpace(a)), '+'), '-'), '.'));
      NumbersLength(Split(Before(Before(TrimPrefixV(TrimSpace(b)), '+'), '-'), '.'));
      CompareVersions(x, y)
  }

  // ---- an order

  /** A number among the identifiers is written without sign or leading zeros. */
  predicate Canonical(id: string) {
    Atoi(id).Some? ==> Atoi(id).value >= 0 && Itoa(Atoi(id).value) == id
  }

  predicate AllCanonical(ids: seq<string>) {
    forall id :: id in ids ==> Canonical(id)
  }

  /** Antisymmetric exactly when the two are the same text, or not two spellings of one number. */
  lemma CompareIdsFlipsIff(a: string, b: string)
    ensures CompareIds(a, b) == -CompareIds(b, a) <==> a == b || !(Atoi(a).Some? && Atoi(a) == Atoi(b))
  {
    StrLessOrder(a, b, a);
  }

  lemma IdsInOrder(a: string, b: string, c: string)
    requires Canonical(a) && Canonical(b) && Canonical(c)
    ensures CompareIds(a, b) == -CompareIds(b, a)
    ensures CompareIds(a, b) == 0 <==> a == b
    ensures CompareIds(a, b) < 0 && CompareIds(b, c) < 0 ==> CompareIds(a, c) < 0
  {
    CompareIdsFlipsIff(a, b);
    StrLessOrder(a, b, c);
  }

  lemma {:induction false} PreInOrder(a: seq<string>, b: seq<string>, c: seq<string>)
    requires AllCanonical(a) && AllCanonical(b) && AllCanonical(c)
    ensures ComparePre(a, b) == -ComparePre(b, a)
    ensures ComparePre(a, b) == 0 <==> a == b
    ensures ComparePre(a, b) <= 0 && ComparePre(b, c) <= 0 ==> ComparePre(a, c) <= 0
    decreases |a| + |b| + |c|
  {
    if a != [] && b != [] {
      IdsInOrder(a[0], b[0], if c == [] then b[0] else c[0]);
      assert a == [a[0]] + a[1..] && b == [b[0]] + b[1..];
      PreInOrder(a[1..], b[1..], if c == [] then [] else c[1..]);
      if c != [] { IdsInOrder(b[0], c[0], a[0]); IdsInOrder(a[0], c[0], b[0]); }
    }
  }

  /** Where the two lists first differ, both have a spelling of the same number. */
  predicate Misspelt(a: seq<string>, b: seq<string>) {
    a != [] && b != []
    && if a[0] == b[0] then Misspelt(a[1..], b[1..]) else Atoi(a[0]).Some? && Atoi(a[0]) == Atoi(b[0])
  }

  lemma {:induction false} PreFlipsIff(a: seq<string>, b: seq<string>)
    ensures ComparePre(a, b) == -ComparePre(b, a) <==> !Misspelt(a, b)
    ensures a == b ==> !Misspelt(a, b)
  {
    if a == [] || b == [] {
    } else if a[0] == b[0] {
      PreFlipsIff(a[1..], b[1..]);
    } else {
      CompareIdsFlipsIff(a[0], b[0]);
    }
  }

  lemma {:induction false} CoreFlips(a: seq<nat>, b: seq<nat>)
    requires |a| == |b|
    ensures CompareCore(a, b) == -CompareCore(b, a) && (CompareCore(a, b) == 0 <==> a == b)
  {
    CoreInOrder(a, b, a);
  }

  /** Both parse, they agree up to pre-release identifiers, and those first differ in two spellings of one number. */
  predicate SameButSpelling(v: string, w: string) {
    ParseSpec(v).Some? && ParseSpec(w).Some?
    && var x, y := ParseSpec(v).value, ParseSpec(w).value;
       x.core == y.core && x.pre != "" && y.pre != "" && Misspelt(Split(x.pre, '.'), Split(y.pre, '.'))
  }

  /** Swapping two versions flips the answer exactly when they do not differ in the spelling of a number first. */
  lemma CompareFlipsIff(v: string, w: string)
    ensures Compare(v, w) == -Compare(w, v) <==> !SameButSpelling(v, w)
  {
    ParsedHasThree(v);
    ParsedHasThree(w);
    if ParseSpec(v).Some? && ParseSpec(w).Some? {
      var x, y := ParseSpec(v).value, ParseSpec(w).value;
      CoreFlips(x.core, y.core);
      PreFlipsIff(Split(x.pre, '.'), Split(y.pre, '.'));
    }
  }

  lemma ParsesWith(pre: string)
    requires pre != "" && '+' !in pre && !IsSpace(pre[|pre| - 1])
    ensures ParseSpec("1.0.0-" + pre) == Some(Version([1, 0, 0], pre))
  {
    var v := Version([1, 0, 0], pre);
    assert Itoa(1) == "1" && Itoa(0) == "0";
    var text := "1.0.0-" + pre;
    assert ShowVersion(v) == text && Dressed(text, false, None) == text;
    VersionReadsBack(v, false, None);
  }

  /** 1.0.0-01 and 1.0.0-1: each is above the other. */
  lemma SpellingsExample()
    ensures Compare("1.0.0-" + "01", "1.0.0-" + "1") == 1 && Compare("1.0.0-" + "1", "1.0.0-" + "01") == 1
  {
    ParsesWith("01");
    ParsesWith("1");
    SpellingsOfOne();
  }

  lemma SpellingsOfOne()
    ensures CompareIds("01", "1") == 1 && CompareIds("1", "01") == 1
  {
    assert "01"[..1] == "0" && "0"[..0] == "" && "1"[..0] == "";
    assert DigitsValue("0") == 0 && DigitsValue("1") == 1 && DigitsValue("01") == 1;
    assert AllDigits("01") && AllDigits("1");
  }

  predicate CanonicalVersion(v: string) {
    ParseSpec(v).Some? ==> AllCanonical(Split(ParseSpec(v).value.pre, '.'))
  }

  lemma {:induction false} CoreInOrder(a: seq<nat>, b: seq<nat>, c: seq<nat>)
    requires |a| == |b| == |c|
    ensures CompareCore(a, b) == -CompareCore(b, a)
    ensures CompareCore(a, b) == 0 <==> a == b
    ensures CompareCore(a, b) <= 0 && CompareCore(b, c) <= 0 ==> CompareCore(a, c) <= 0
  {
    if a == [] {
    } else {
      CoreInOrder(a[1..], b[1..], c[1..]);
      assert a == [a[0]] + a[1..] && b == [b[0]] + b[1..];
    }
  }

  lemma VersionsInOrder(x: Version, y: Version, z: Version)
    requires |x.core| == |y.core| == |z.core|
    requires AllCanonical(Split(x.pre, '.')) && AllCanonical(Split(y.pre, '.')) && AllCanonical(Split(z.pre, '.'))
    ensures CompareVersions(x, y) == -CompareVersions(y, x)
    ensures CompareVersions(x, y) <= 0 && CompareVersions(y, z) <= 0 ==> CompareVersions(x, z) <= 0
  {
    CoreInOrder(x.core, y.core, z.core);
    CoreInOrder(z.core, y.core, x.core);
    CoreInOrder(x.core, z.core, y.core);
    var a, b, c := Split(x.pre, '.'), Split(y.pre, '.'), Split(z.pre, '.');
    PreInOrder(a, b, c);
    PreInOrder(c, b, a);
    PreInOrder(a, c, b);
  }

  /** On versions with canonical numbers the comparison is a total preorder, with what does not parse below everything. */
  lemma CompareInOrder(a: string, b: string, c: string)
    requires CanonicalVersion(a) && CanonicalVersion(b) && CanonicalVersion(c)
    ensures Compare(a, a) == 0 && Compare(a, b) == -Compare(b, a)
    ensures Compare(a, b) <= 0 && Compare(b, c) <= 0 ==> Compare(a, c) <= 0
    ensures ParseSpec(a).None? ==> Compare(a, b) <= 0
    ensures ParseSpec(a).None? && ParseSpec(b).Some? ==> Compare(a, b) == -1
  {
    var x, y, z := ParseSpec(a), ParseSpec(b), ParseSpec(c);
    ParsedHasThree(a);
    ParsedHasThree(b);
    ParsedHasThree(c);
    if x.Some? { CoreInOrder(x.value.core, x.value.core, x.value.core); }
    if x.Some? && y.Some? {
      VersionsInOrder(x.value, y.value, if z.Some? then z.value else x.value);
    }
  }

  lemma ParsedHasThree(v: string)
    ensures ParseSpec(v).Some? ==> |ParseSpec(v).value.core| == 3
  {
    NumbersLength(Split(Before(Before(TrimPrefixV(TrimSpace(v)), '+'), '-'), '.'));
  }

  // ---- section 11 of Semantic Versioning 2.0.0

  predicate Numeric(id: string) {
    id != [] && AllDigits(id)
  }

  /** Identifiers of digits compare numerically and rank below others, which compare by character. */
  predicate IdPrecedes(a: string, b: string) {
    if Numeric(a) && Numeric(b) then DigitsValue(a) < DigitsValue(b)
    else if Numeric(a) || Numeric(b) then Numeric(a)
    else StrLess(a, b)
  }

  predicate PreDecides(a: seq<string>, b: seq<string>, i: int) {
    && 0 <= i <= |a| && i <= |b| && a[..i] == b[..i]
    && if i < |a| && i < |b| then a[i] != b[i] && IdPrecedes(a[i], b[i]) else i == |a| && i < |b|
  }

  /** The first identifiers that differ decide; a longer list wins when none does. */
  ghost predicate PrePrecedes(a: seq<string>, b: seq<string>) {
    exists i :: PreDecides(a, b, i)
  }

  predicate CoreDecides(a: seq<nat>, b: seq<nat>, i: int)
    requires |a| == |b|
  {
    0 <= i < |a| && a[..i] == b[..i] && a[i] < b[i]
  }

  ghost predicate CorePrecedes(a: seq<nat>, b: seq<nat>)
    requires |a| == |b|
  {
    exists i :: CoreDecides(a, b, i)
  }

  /** Core numbers first; then a pre-release ranks below its release; then the pre-releases. */
  ghost predicate Precedes(x: Version, y: Version)
    requires |x.core| == |y.core|
  {
    CorePrecedes(x.core, y.core)
    || (x.core == y.core && x.pre != "" && (y.pre == "" || PrePrecedes(Split(x.pre, '.'), Split(y.pre, '.'))))
  }

  /** The identifier is a number to both, or to neither: no leading zeros, no sign, and it fits the machine's integers. */
  predicate Plain(id: string) {
    (Numeric(id) <==> Atoi(id).Some?) && Canonical(id)
  }

  lemma IdsAgree(a: string, b: string)
    requires Plain(a) && Plain(b)
    ensures a != b ==> (CompareIds(a, b) == -1 <==> IdPrecedes(a, b))
  {
    if Numeric(a) { assert Atoi(a).value == DigitsValue(a); }
    if Numeric(b) { assert Atoi(b).value == DigitsValue(b); }
    if Numeric(a) && Numeric(b) && a != b {
      assert DigitsValue(a) != DigitsValue(b);
    }
  }

  lemma PreShift(a: seq<string>, b: seq<string>, i: int)
    requires a != [] && b != [] && a[0] == b[0]
    ensures i >= 0 && PreDecides(a[1..], b[1..], i) ==> PreDecides(a, b, i + 1)
    ensures i >= 0 && PreDecides(a, b, i + 1) ==> PreDecides(a[1..], b[1..], i)
    ensures !PreDecides(a, b, 0)
  {
    if 0 <= i < |a| && i < |b| {
      assert a[..i + 1] == [a[0]] + a[1..][..i] && b[..i + 1] == [b[0]] + b[1..][..i];
      assert a[1..][..i] == a[..i + 1][1..] && b[1..][..i] == b[..i + 1][1..];
    }
  }

  lemma {:induction false} PresAgree(a: seq<string>, b: seq<string>)
    requires forall id :: id in a || id in b ==> Plain(id)
    ensures ComparePre(a, b) == -1 <==> PrePrecedes(a, b)
  {
    if a != [] && b != [] && a[0] == b[0] {
      PresAgree(a[1..], b[1..]);
      if PrePrecedes(a[1..], b[1..]) {
        var i :| PreDecides(a[1..], b[1..], i);
        PreShift(a, b, i);
      }
      if PrePrecedes(a, b) {
        var i :| PreDecides(a, b, i);
        PreShift(a, b, i - 1);
      }
    } else {
      if a != [] && b != [] { IdsAgree(a[0], b[0]); }
      assert PreDecides(a, b, 0) <==> ComparePre(a, b) == -1;
      if PrePrecedes(a, b) {
        var i :| PreDecides(a, b, i);
        assert i == 0;
      }
    }
  }

  lemma CoreShift(a: seq<nat>, b: seq<nat>, i: int)
    requires |a| == |b| && a != [] && a[0] == b[0]
    ensures i >= 0 && CoreDecides(a[1..], b[1..], i) ==> CoreDecides(a, b, i + 1)
    ensures i >= 0 && CoreDecides(a, b, i + 1) ==> CoreDecides(a[1..], b[1..], i)
  {
    if 0 <= i < |a| {
      assert a[..i + 1] == [a[0]] + a[1..][..i] && b[..i + 1] == [b[0]] + b[1..][..i];
      assert a[1..][..i] == a[..i + 1][1..] && b[1..][..i] == b[..i + 1][1..];
    }
  }

  lemma {:induction false} CoresAgree(a: seq<nat>, b: seq<nat>)
    requires |a| == |b|
    ensures CompareCore(a, b) == -1 <==> CorePrecedes(a, b)
    ensures CompareCore(a, b) == 0 <==> a == b
  {
    if a == [] {
    } else {
      CoresAgree(a[1..], b[1..]);
      assert a == [a[0]] + a[1..] && b == [b[0]] + b[1..];
      if a[0] == b[0] {
        if CorePrecedes(a[1..], b[1..]) {
          var i :| CoreDecides(a[1..], b[1..], i);
          CoreShift(a, b, i);
        }
        if CorePrecedes(a, b) {
          var i :| CoreDecides(a, b, i);
          CoreShift(a, b, i - 1);
        }
      } else {
        assert CoreDecides(a, b, 0) <==> a[0] < b[0];
        if CorePrecedes(a, b) {
          var i :| CoreDecides(a, b, i);
          assert i == 0;
        }
      }
    }
  }

  /** Compare is the precedence of the standard. */
  lemma CompareIsPrecedence(a: string, b: string)
    requires ParseSpec(a).Some? && ParseSpec(b).Some?
    requires forall id :: id in Split(ParseSpec(a).value.pre, '.') || id in Split(ParseSpec(b).value.pre, '.') ==> Plain(id)
    ensures |ParseSpec(a).value.core| == |ParseSpec(b).value.core| == 3
    ensures Compare(a, b) == -1 <==> Precedes(ParseSpec(a).value, ParseSpec(b).value)
    ensures Compare(a, b) == 1 <==> Precedes(ParseSpec(b).value, ParseSpec(a).value)
  {
    ParsedHasThree(a);
    ParsedHasThree(b);
    var x, y := ParseSpec(a).value, ParseSpec(b).value;
    CoresAgree(x.core, y.core);
    CoresAgree(y.core, x.core);
    CoreInOrder(x.core, y.core, x.core);
    PresAgree(Split(x.pre, '.'), Split(y.pre, '.'));
    PresAgree(Split(y.pre, '.'), Split(x.pre, '.'));
    PreInOrder(Split(x.pre, '.'), Split(y.pre, '.'), Split(x.pre, '.'));
  }

  /** A version whose identifiers are numbers to both or to neither. */
  predicate PlainVersion(v: string) {
    ParseSpec(v).Some? && forall id :: id in Split(ParseSpec(v).value.pre, '.') ==> Plain(id)
  }

  /** The first version ranks below the second. */
  ghost predicate Below(a: string, b: string) {
    ParseSpec(a).Some? && ParseSpec(b).Some? && |ParseSpec(a).value.core| == |ParseSpec(b).value.core|
    && Precedes(ParseSpec(a).value, ParseSpec(b).value)
  }

  lemma NotBelowIff(a: string, b: string)
    requires PlainVersion(a) && PlainVersion(b)
    ensures Compare(a, b) >= 0 <==> !Below(a, b)
    ensures Compare(a, b) > 0 <==> Below(b, a)
  {
    CompareIsPrecedence(a, b);
  }

  // ---- the newest release

  datatype Release = Release(tag: string, draft: bool, prerelease: bool)

  predicate Allowed(r: Release, channel: string) {
    !r.draft && (!r.prerelease || channel == "prerelease") && ParseSpec(r.tag).Some?
  }

  function VersionOf(r: Release): string {
    TrimPrefixV(r.tag)
  }

  /** The first of the highest elements that are ok, as a single pass finds it. */
  function Highest<T>(list: seq<T>, ok: T -> bool, cmp: (T, T) -> int): Option<T> {
    if list == [] then None
    else
      var best, r := Highest(list[..|list| - 1], ok, cmp), list[|list| - 1];
      if ok(r) && (best.None? || cmp(r, best.value) > 0) then Some(r) else best
  }

  /** The comparison orders the elements of the list that are ok. */
  ghost predicate Ordered<T>(list: seq<T>, ok: T -> bool, cmp: (T, T) -> int) {
    && (forall a :: a in list && ok(a) ==> cmp(a, a) == 0)
    && (forall a, b :: a in list && b in list && ok(a) && ok(b) ==> cmp(a, b) == -cmp(b, a))
    && forall a, b, c :: a in list && b in list && c in list && ok(a) && ok(b) && ok(c) && cmp(a, b) <= 0 && cmp(b, c) <= 0 ==> cmp(a, c) <= 0
  }

  lemma {:induction false} HighestIsHighest<T>(list: seq<T>, ok: T -> bool, cmp: (T, T) -> int)
    requires Ordered(list, ok, cmp)
    ensures Highest(list, ok, cmp).Some? ==> Highest(list, ok, cmp).value in list && ok(Highest(list, ok, cmp).value)
    ensures forall r :: r in list && ok(r) ==> Highest(list, ok, cmp).Some? && cmp(r, Highest(list, ok, cmp).value) <= 0
  {
    if list == [] {
    } else {
      var rest, r := list[..|list| - 1], list[|list| - 1];
      assert list == rest + [r];
      HighestIsHighest(rest, ok, cmp);
    }
  }

  function Offers(channel: string): Release -> bool {
    (r: Release) => Allowed(r, channel)
  }

  function ByVersion(): (Release, Release) -> int {
    (a: Release, b: Release) => Compare(VersionOf(a), VersionOf(b))
  }

  /** Whether a release is one the channel offers. */
  method Offered(r: Release, channel: string) returns (yes: bool)
    ensures yes == Offers(channel)(r)
  {
    var parsed := Parse(r.tag);
    yes := !(r.draft || (r.prerelease && channel != "prerelease") || parsed.None?);
  }

  lemma ReleasesOrdered(list: seq<Release>, channel: string)
    requires forall r :: r in list && Allowed(r, channel) ==> CanonicalVersion(VersionOf(r))
    ensures Ordered(list, Offers(channel), ByVersion())
  {
    var ok, cmp := Offers(channel), ByVersion();
    forall a, b, c | a in list && b in list && c in list && ok(a) && ok(b) && ok(c)
      ensures cmp(a, a) == 0 && cmp(a, b) == -cmp(b, a)
      ensures cmp(a, b) <= 0 && cmp(b, c) <= 0 ==> cmp(a, c) <= 0
    {
      assert Allowed(a, channel) && Allowed(b, channel) && Allowed(c, channel);
      CompareInOrder(VersionOf(a), VersionOf(b), VersionOf(c));
    }
  }

  /** The newest release is an allowed one that no other allowed release exceeds; there is none only when none is allowed. */
  lemma {:induction false} NewestIsHighest(list: seq<Release>, channel: string, r: Release)
    requires forall q :: q in list && Allowed(q, channel) ==> CanonicalVersion(VersionOf(q))
    ensures var best := Highest(list, Offers(channel), ByVersion());
      && (best.Some? ==> best.value in list && Allowed(best.value, channel))
      && (r in list && Allowed(r, channel) ==> best.Some? && Compare(VersionOf(r), VersionOf(best.value)) <= 0)
  {
    ReleasesOrdered(list, channel);
    HighestIsHighest(list, Offers(channel), ByVersion());
    assert Offers(channel)(r) == Allowed(r, channel);
  }

  lemma {:induction false} HighestIsOk<T>(list: seq<T>, ok: T -> bool, cmp: (T, T) -> int)
    ensures Highest(list, ok, cmp).Some? <==> exists r :: r in list && ok(r)
    ensures Highest(list, ok, cmp).Some? ==> Highest(list, ok, cmp).value in list && ok(Highest(list, ok, cmp).value)
  {
    if list == [] {
    } else {
      var init, last := list[..|list| - 1], list[|list| - 1];
      assert list == init + [last];
      HighestIsOk(init, ok, cmp);
    }
  }

  /** An allowed release exactly when there is one, and with canonical tags one that no other exceeds. */
  method Newest(list: seq<Release>, channel: string) returns (best: Option<Release>)
    ensures best == Highest(list, Offers(channel), ByVersion())
    ensures best.None? ==> forall r :: r in list ==> r.draft || (r.prerelease && channel != "prerelease") || ParseSpec(r.tag).None?
    ensures best.Some? ==>
      best.value in list && !best.value.draft && (best.value.prerelease ==> channel == "prerelease") && ParseSpec(best.value.tag).Some?
    ensures (forall q :: q in list && Allowed(q, channel) ==> CanonicalVersion(VersionOf(q))) ==>
      forall r :: r in list && Allowed(r, channel) ==> Compare(VersionOf(r), VersionOf(best.value)) <= 0
  {
    best := None;
    for i := 0 to |list|
      invariant best == Highest(list[..i], Offers(channel), ByVersion())
    {
      assert list[..i + 1][..i] == list[..i];
      var offered := Offered(list[i], channel);
      if offered && (best.None? || Compare(VersionOf(list[i]), VersionOf(best.value)) > 0) {
        best := Some(list[i]);
      }
    }
    assert list[..|list|] == list;
    HighestIsOk(list, Offers(channel), ByVersion());
    if forall q :: q in list && Allowed(q, channel) ==> CanonicalVersion(VersionOf(q)) {
      forall r | r in list && Allowed(r, channel) ensures Compare(VersionOf(r), VersionOf(best.value)) <= 0 {
        NewestIsHighest(list, channel, r);
      }
    }
  }
}
