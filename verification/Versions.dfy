/**
 Version targeting of a broadcast (src/notifications/push-target.ts): parsing, comparison, and the
 filter "strictly older than". Numbers are exact here; the code reads them as doubles.
 */
module Versions {
  import opened Common

  datatype Version = Version(core: (nat, nat, nat), prerelease: seq<string>)

  // ----- Text -----

  predicate IsDigit(c: char) {
    '0' <= c <= '9'
  }

  predicate Numeric(s: string) {
    s != "" && forall i :: 0 <= i < |s| ==> IsDigit(s[i])
  }

  function ToNumber(s: string): nat
    requires forall i :: 0 <= i < |s| ==> IsDigit(s[i])
  {
    if s == "" then 0 else assert IsDigit(s[|s| - 1]); 10 * ToNumber(s[..|s| - 1]) + (s[|s| - 1] as int - '0' as int)
  }

  /** A tag of letters, digits, dots and hyphens, as both the pre-release and the build are. */
  predicate IsTag(s: string) {
    s != "" && forall i :: 0 <= i < |s| ==>
      IsDigit(s[i]) || 'a' <= s[i] <= 'z' || 'A' <= s[i] <= 'Z' || s[i] == '.' || s[i] == '-'
  }

  /** Where `c` first occurs, or the length when it does not. */
  function IndexOf(s: string, c: char): (i: nat)
    ensures i <= |s| && (i < |s| ==> s[i] == c) && forall k :: 0 <= k < i ==> s[k] != c
  {
    if s == "" || s[0] == c then 0 else 1 + IndexOf(s[1..], c)
  }

  function Split(s: string, c: char): (parts: seq<string>)
    ensures |parts| >= 1
    decreases |s|
  {
    var i := IndexOf(s, c);
    if i == |s| then [s] else [s[..i]] + Split(s[i + 1..], c)
  }

  /** What the language trims: white space, line ends and the byte order mark. */
  predicate IsSpace(c: char) {
    || '\U{9}' <= c <= '\U{D}' || c == ' ' || c == '\U{A0}' || c == '\U{1680}' || '\U{2000}' <= c <= '\U{200A}'
    || c == '\U{2028}' || c == '\U{2029}' || c == '\U{202F}' || c == '\U{205F}' || c == '\U{3000}' || c == '\U{FEFF}'
  }

  function TrimStart(s: string): string {
    if s != "" && IsSpace(s[0]) then TrimStart(s[1..]) else s
  }

  function TrimEnd(s: string): string {
    if s != "" && IsSpace(s[|s| - 1]) then TrimEnd(s[..|s| - 1]) else s
  }

  function Parse(text: string): Option<Version> {
    ParseTrimmed(TrimEnd(TrimStart(text)))
  }

  /** x, x.y or x.y.z, an optional "-" pre-release and an optional "+" build, which does not count. */
  function ParseTrimmed(text: string): Option<Version> {
    var plus := IndexOf(text, '+');
    if plus < |text| && !IsTag(text[plus + 1..]) then None
    else
      var body := text[..plus];
      var dash := IndexOf(body, '-');
      if dash < |body| && !IsTag(body[dash + 1..]) then None
      else
        var core := Split(body[..dash], '.');
        if |core| > 3 || exists i :: 0 <= i < |core| && !Numeric(core[i]) then None
        else
          var minor := if |core| > 1 then ToNumber(core[1]) else 0;
          var patch := if |core| > 2 then ToNumber(core[2]) else 0;
          Some(Version((ToNumber(core[0]), minor, patch), if dash < |body| then Split(body[dash + 1..], '.') else []))
  }

  // ----- Comparison, as the code does it -----

  predicate TextLess(a: string, b: string) {
    if b == "" then false
    else if a == "" then true
    else if a[0] != b[0] then a[0] < b[0]
    else TextLess(a[1..], b[1..])
  }

  /** The order of two different identifiers: -1 or 1. */
  function CompareIdentifiers(a: string, b: string): int {
    if Numeric(a) && Numeric(b) then if ToNumber(a) < ToNumber(b) then -1 else 1
    else if Numeric(a) != Numeric(b) then if Numeric(a) then -1 else 1
    else if TextLess(a, b) then -1 else 1
  }

  function CompareCore(a: (nat, nat, nat), b: (nat, nat, nat)): int {
    if a.0 != b.0 then if a.0 < b.0 then -1 else 1
    else if a.1 != b.1 then if a.1 < b.1 then -1 else 1
    else if a.2 != b.2 then if a.2 < b.2 then -1 else 1
    else 0
  }

  /** What the comparison of the pre-release parts from index `i` on yields. */
  function CompareFrom(a: seq<string>, b: seq<string>, i: nat): int
    requires i <= |a| || i <= |b|
    decreases |a| + |b| - i
  {
    if i >= |a| && i >= |b| then 0
    else if i >= |a| then -1
    else if i >= |b| then 1
    else if a[i] == b[i] then CompareFrom(a, b, i + 1)
    else CompareIdentifiers(a[i], b[i])
  }

  function CompareParsed(a: Version, b: Version): int {
    if CompareCore(a.core, b.core) != 0 then CompareCore(a.core, b.core)
    else if a.prerelease == [] && b.prerelease == [] then 0
    else if a.prerelease == [] then 1
    else if b.prerelease == [] then -1
    else CompareFrom(a.prerelease, b.prerelease, 0)
  }

  method CompareVersions(a: string, b: string) returns (r: Option<int>)
    ensures r == if Parse(a).Some? && Parse(b).Some? then Some(CompareParsed(Parse(a).value, Parse(b).value)) else None
  {
    var va, vb := Parse(a), Parse(b);
    if va.None? || vb.None? {
      return None;
    }
    var ca := [va.value.core.0, va.value.core.1, va.value.core.2];
    var cb := [vb.value.core.0, vb.value.core.1, vb.value.core.2];
    for i := 0 to 3
      invariant forall k :: 0 <= k < i ==> ca[k] == cb[k]
    {
      if ca[i] != cb[i] {
        assert (i > 0 ==> ca[0] == cb[0]) && (i > 1 ==> ca[1] == cb[1]);
        return Some(if ca[i] < cb[i] then -1 else 1);
      }
    }
    assert ca[0] == cb[0] && ca[1] == cb[1] && ca[2] == cb[2];
    var pa, pb := va.value.prerelease, vb.value.prerelease;
    if pa == [] || pb == [] {
      return Some(if |pa| == |pb| then 0 else if pa == [] then 1 else -1);
    }
    var length := if |pa| < |pb| then |pb| else |pa|;
    for i := 0 to length
      invariant i <= |pa| && i <= |pb| && CompareFrom(pa, pb, i) == CompareFrom(pa, pb, 0) == CompareParsed(va.value, vb.value)
    {
      if i == |pa| {
        return Some(-1);
      }
      if i == |pb| {
        return Some(1);
      }
      if pa[i] != pb[i] {
        return Some(CompareIdentifiers(pa[i], pb[i]));
      }
    }
    r := Some(0);
  }

  // ----- Semantic Versioning 2.0.0, item 11 -----

  datatype Identifier = Number(n: nat) | Text(s: string)

  function Read(s: string): Identifier {
    if Numeric(s) then Number(ToNumber(s)) else Text(s)
  }

  /** Numeric identifiers compare numerically and come before the others, which compare by character. */
  predicate IdentifierLess(a: Identifier, b: Identifier) {
    match (a, b)
    case (Number(m), Number(n)) => m < n
    case (Number(_), Text(_)) => true
    case (Text(_), Number(_)) => false
    case (Text(s), Text(t)) => TextLess(s, t)
  }

  /** The first difference decides; a longer list with the same start has the higher precedence. */
  ghost predicate ListLess(a: seq<Identifier>, b: seq<Identifier>) {
    exists i :: 0 <= i <= |a| && i < |b| && a[..i] == b[..i] && (i == |a| || IdentifierLess(a[i], b[i]))
  }

  ghost function ReadAll(parts: seq<string>): seq<Identifier> {
    seq(|parts|, i requires 0 <= i < |parts| => Read(parts[i]))
  }

  predicate CoreLess(a: (nat, nat, nat), b: (nat, nat, nat)) {
    a.0 < b.0 || (a.0 == b.0 && (a.1 < b.1 || (a.1 == b.1 && a.2 < b.2)))
  }

  ghost predicate Precedes(a: Version, b: Version) {
    || CoreLess(a.core, b.core)
    || (a.core == b.core && a.prerelease != [] &&
        (b.prerelease == [] || ListLess(ReadAll(a.prerelease), ReadAll(b.prerelease))))
  }

  /** What the standard asks of identifiers: not empty, and numbers without leading zeros. */
  predicate WellFormedIdentifier(s: string) {
    s != "" && (Numeric(s) ==> s == "0" || s[0] != '0')
  }

  predicate WellFormed(v: Version) {
    forall i :: 0 <= i < |v.prerelease| ==> WellFormedIdentifier(v.prerelease[i])
  }

  // ----- Identifiers -----

  lemma {:induction false} TextLessIsStrict(a: string, b: string)
    ensures !(TextLess(a, b) && TextLess(b, a))
    ensures TextLess(a, b) || TextLess(b, a) || a == b
  {
    if a != "" && b != "" {
      TextLessIsStrict(a[1..], b[1..]);
      assert a == [a[0]] + a[1..] && b == [b[0]] + b[1..];
    }
  }

  lemma {:induction false} TextLessTransitive(a: string, b: string, c: string)
    requires TextLess(a, b) && TextLess(b, c)
    ensures TextLess(a, c)
  {
    if a != "" && a[0] == b[0] && b[0] == c[0] {
      TextLessTransitive(a[1..], b[1..], c[1..]);
    }
  }

  lemma {:induction false} Power(s: string)
    requires forall i :: 0 <= i < |s| ==> IsDigit(s[i])
    requires s != "" && s[0] != '0'
    ensures ToNumber(s) >= 1
  {
    if |s| > 1 {
      Power(s[..|s| - 1]);
    }
  }

  /** Without leading zeros a number is written in one way. */
  lemma {:induction false} NumbersAreWrittenOnce(a: string, b: string)
    requires Numeric(a) && Numeric(b) && ToNumber(a) == ToNumber(b)
    requires WellFormedIdentifier(a) && WellFormedIdentifier(b)
    ensures a == b
    decreases |a|
  {
    var x, y := a[..|a| - 1], b[..|b| - 1];
    if |a| == 1 || |b| == 1 {
      if |a| > 1 {
        Power(x);
      }
      if |b| > 1 {
        Power(y);
      }
    } else {
      NumbersAreWrittenOnce(x, y);
    }
    assert a == x + [a[|a| - 1]] && b == y + [b[|b| - 1]];
  }

  lemma IdentifierOrder(a: string, b: string)
    requires WellFormedIdentifier(a) && WellFormedIdentifier(b) && a != b
    ensures CompareIdentifiers(a, b) == -1 <==> IdentifierLess(Read(a), Read(b))
    ensures CompareIdentifiers(a, b) == 1 <==> IdentifierLess(Read(b), Read(a))
    ensures CompareIdentifiers(a, b) == -CompareIdentifiers(b, a)
  {
    TextLessIsStrict(a, b);
    if Numeric(a) && Numeric(b) && ToNumber(a) == ToNumber(b) {
      NumbersAreWrittenOnce(a, b);
    }
  }

  // ----- The comparison is the standard's precedence -----

  lemma {:induction false} CompareFromIsPrecedence(a: seq<string>, b: seq<string>, i: nat)
    requires forall k :: 0 <= k < |a| ==> WellFormedIdentifier(a[k])
    requires forall k :: 0 <= k < |b| ==> WellFormedIdentifier(b[k])
    requires i <= |a| && i <= |b| && a[..i] == b[..i]
    ensures CompareFrom(a, b, i) == 0 <==> a == b
    ensures CompareFrom(a, b, i) == -1 <==> ListLess(ReadAll(a), ReadAll(b))
    ensures CompareFrom(a, b, i) == 1 <==> ListLess(ReadAll(b), ReadAll(a))
    ensures CompareFrom(a, b, i) == -CompareFrom(b, a, i)
    decreases |a| - i
  {
    var x, y := ReadAll(a), ReadAll(b);
    assert x[..i] == y[..i] by {
      assert forall k :: 0 <= k < i ==> a[k] == a[..i][k] && b[k] == b[..i][k];
    }
    if i < |a| && i < |b| && a[i] == b[i] {
      assert a[..i + 1] == b[..i + 1];
      CompareFromIsPrecedence(a, b, i + 1);
    } else {
      if i < |a| && i < |b| {
        IdentifierOrder(a[i], b[i]);
      }
      DecidedAt(x, y, i);
      DecidedAt(y, x, i);
      assert i < |a| && i < |b| ==> a[i] != b[i];
      if i == |a| && i == |b| {
        assert a == a[..i] && b == b[..i];
      }
    }
  }

  /** The first place where two lists differ, or where one of them ends, decides their order. */
  lemma DecidedAt(x: seq<Identifier>, y: seq<Identifier>, i: nat)
    requires i <= |x| && i <= |y| && x[..i] == y[..i]
    requires i < |x| && i < |y| ==> IdentifierLess(x[i], y[i]) || IdentifierLess(y[i], x[i])
    ensures ListLess(x, y) <==> i < |y| && (i == |x| || IdentifierLess(x[i], y[i]))
  {
    if ListLess(x, y) {
      var j :| 0 <= j <= |x| && j < |y| && x[..j] == y[..j] && (j == |x| || IdentifierLess(x[j], y[j]));
      if j < i {
        assert x[j] == x[..i][j] && y[j] == y[..i][j];
        IdentifierLessIrreflexive(x[j]);
      } else if i < j {
        assert x[i] == x[..j][i] && y[i] == y[..j][i];
        IdentifierLessIrreflexive(x[i]);
      }
    }
  }

  lemma IdentifierLessIrreflexive(x: Identifier)
    ensures !IdentifierLess(x, x)
  {
    if x.Text? {
      TextLessIsStrict(x.s, x.s);
    }
  }

  /**
   On well-formed versions the comparison is precedence as item 11 of Semantic Versioning 2.0.0
   defines it: -1, 1 and 0 mean lower, higher and equal in core and pre-release; it changes sign with
   its arguments.
   */
  lemma CompareIsPrecedence(a: Version, b: Version)
    requires WellFormed(a) && WellFormed(b)
    ensures CompareParsed(a, b) in {-1, 0, 1}
    ensures CompareParsed(a, b) == -1 <==> Precedes(a, b)
    ensures CompareParsed(a, b) == 1 <==> Precedes(b, a)
    ensures CompareParsed(a, b) == 0 <==> a == b
    ensures CompareParsed(a, b) == -CompareParsed(b, a)
  {
    if a.core == b.core && a.prerelease != [] && b.prerelease != [] {
      CompareFromIsPrecedence(a.prerelease, b.prerelease, 0);
      CompareFromRange(a.prerelease, b.prerelease, 0);
    }
  }

  lemma {:induction false} CompareFromRange(a: seq<string>, b: seq<string>, i: nat)
    requires i <= |a| && i <= |b|
    ensures CompareFrom(a, b, i) in {-1, 0, 1}
    decreases |a| - i
  {
    if i < |a| && i < |b| {
      CompareFromRange(a, b, i + 1);
    }
  }

  lemma IdentifierLessTransitive(x: Identifier, y: Identifier, z: Identifier)
    requires IdentifierLess(x, y) && IdentifierLess(y, z)
    ensures IdentifierLess(x, z)
  {
    if x.Text? && y.Text? && z.Text? {
      TextLessTransitive(x.s, y.s, z.s);
    }
  }

  lemma ListLessTransitive(x: seq<Identifier>, y: seq<Identifier>, z: seq<Identifier>)
    requires ListLess(x, y) && ListLess(y, z)
    ensures ListLess(x, z)
  {
    var i :| 0 <= i <= |x| && i < |y| && x[..i] == y[..i] && (i == |x| || IdentifierLess(x[i], y[i]));
    var j :| 0 <= j <= |y| && j < |z| && y[..j] == z[..j] && (j == |y| || IdentifierLess(y[j], z[j]));
    if i < j {
      assert x[..i] == y[..j][..i] == z[..i] && y[i] == y[..j][i] == z[i];
    } else if j < i {
      assert x[..j] == x[..i][..j] == y[..j] && x[j] == x[..i][j] == y[j];
    } else if i < |x| {
      IdentifierLessTransitive(x[i], y[i], z[i]);
    }
    var k := if i < j then i else j;
    assert 0 <= k <= |x| && k < |z| && x[..k] == z[..k] && (k == |x| || IdentifierLess(x[k], z[k]));
  }

  /** With the sign change above, this makes "lower or equal" a total preorder. */
  lemma PrecedenceIsTransitive(a: Version, b: Version, c: Version)
    requires WellFormed(a) && WellFormed(b) && WellFormed(c)
    requires CompareParsed(a, b) <= 0 && CompareParsed(b, c) <= 0
    ensures CompareParsed(a, c) <= 0
    ensures CompareParsed(a, b) < 0 || CompareParsed(b, c) < 0 ==> CompareParsed(a, c) < 0
  {
    CompareIsPrecedence(a, b);
    CompareIsPrecedence(b, c);
    CompareIsPrecedence(a, c);
    if a.prerelease != [] && b.prerelease != [] && c.prerelease != [] && Precedes(a, b) && Precedes(b, c)
       && a.core == b.core && b.core == c.core
    {
      ListLessTransitive(ReadAll(a.prerelease), ReadAll(b.prerelease), ReadAll(c.prerelease));
    }
  }

  /** The parts first differ in how one number is written, which only a leading zero allows. */
  ghost predicate SameNumberTwice(a: seq<string>, b: seq<string>, from: nat) {
    exists i :: from <= i < |a| && i < |b| && a[from..i] == b[from..i] && a[i] != b[i]
                && Numeric(a[i]) && Numeric(b[i]) && ToNumber(a[i]) == ToNumber(b[i])
  }

  /** An equal part decides nothing: the first number written twice is further on. */
  lemma SkipEqualPart(a: seq<string>, b: seq<string>, i: nat)
    requires i < |a| && i < |b| && a[i] == b[i]
    ensures SameNumberTwice(a, b, i) <==> SameNumberTwice(a, b, i + 1)
  {
    forall k | i + 1 <= k < |a| && k < |b| ensures a[i..k] == b[i..k] <==> a[i + 1..k] == b[i + 1..k] {
      assert a[i..k] == [a[i]] + a[i + 1..k] && b[i..k] == [b[i]] + b[i + 1..k];
    }
  }

  /** The first different part decides: it must be the number written twice, if there is one. */
  lemma StopAtDifferentPart(a: seq<string>, b: seq<string>, i: nat)
    requires i < |a| && i < |b| && a[i] != b[i]
    ensures SameNumberTwice(a, b, i) <==> Numeric(a[i]) && Numeric(b[i]) && ToNumber(a[i]) == ToNumber(b[i])
  {
    assert a[i..i] == b[i..i];
    forall k | i < k < |a| && k < |b| ensures a[i..k] != b[i..k] {
      assert a[i..k][0] == a[i] && b[i..k][0] == b[i];
    }
  }

  lemma {:induction false} SignOfParts(a: seq<string>, b: seq<string>, i: nat)
    requires i <= |a| && i <= |b|
    ensures CompareFrom(a, b, i) == -CompareFrom(b, a, i) <==> !SameNumberTwice(a, b, i)
    decreases |a| - i
  {
    if i < |a| && i < |b| {
      if a[i] == b[i] {
        SignOfParts(a, b, i + 1);
        SkipEqualPart(a, b, i);
      } else {
        TextLessIsStrict(a[i], b[i]);
        StopAtDifferentPart(a, b, i);
      }
      hide SameNumberTwice, TextLess, ToNumber, Numeric;
    }
  }

  /** On every pair of versions, well formed or not: the order fails exactly when one number is written twice. */
  lemma SignChangesExactlyWhen(a: Version, b: Version)
    ensures CompareParsed(a, b) == -CompareParsed(b, a) <==>
            !(a.core == b.core && SameNumberTwice(a.prerelease, b.prerelease, 0))
  {
    SignOfParts(a.prerelease, b.prerelease, 0);
  }

  // ----- Reading is the inverse of writing -----

  function Join(parts: seq<string>): string {
    if parts == [] then "" else if |parts| == 1 then parts[0] else parts[0] + "." + Join(parts[1..])
  }

  ghost predicate Blank(s: string) {
    forall i :: 0 <= i < |s| ==> IsSpace(s[i])
  }

  /** One to three numbers, dotted parts of letters, digits and hyphens, and a build of the same with dots. */
  ghost predicate IsWritable(numbers: seq<string>, prerelease: seq<string>, build: Option<string>) {
    && 1 <= |numbers| <= 3 && (forall i :: 0 <= i < |numbers| ==> Numeric(numbers[i]))
    && (prerelease != [] ==> IsTag(Join(prerelease)))
    && (forall i :: 0 <= i < |prerelease| ==> '.' !in prerelease[i])
    && (build.Some? ==> IsTag(build.value))
  }

  /** The text of a version: 1.2.3, 1.2.3-rc.1, 1.2.3+7 or 1.2.3-rc.1+7. */
  function Written(numbers: seq<string>, prerelease: seq<string>, build: Option<string>): string {
    Join(numbers) + (if prerelease == [] then "" else "-" + Join(prerelease)) + (if build.None? then "" else "+" + build.value)
  }

  /** The text says these numbers and parts, between any white space. */
  ghost predicate Says(text: string, numbers: seq<string>, prerelease: seq<string>, build: Option<string>) {
    && IsWritable(numbers, prerelease, build)
    && exists before, after :: Blank(before) && Blank(after) && text == before + Written(numbers, prerelease, build) + after
  }

  function NumberAt(numbers: seq<string>, i: nat): nat
    requires forall k :: 0 <= k < |numbers| ==> Numeric(numbers[k])
  {
    if i < |numbers| then assert Numeric(numbers[i]); ToNumber(numbers[i]) else 0
  }

  lemma IndexIs(s: string, c: char, i: nat)
    requires i <= |s| && (i < |s| ==> s[i] == c) && forall k :: 0 <= k < i ==> s[k] != c
    ensures IndexOf(s, c) == i
  {
  }

  lemma {:induction false} JoinHas(parts: seq<string>, c: char)
    requires c != '.' && forall i :: 0 <= i < |parts| ==> c !in parts[i]
    ensures c !in Join(parts)
  {
    if |parts| > 1 {
      JoinHas(parts[1..], c);
    }
  }

  lemma {:induction false} SplitOfJoin(parts: seq<string>)
    requires parts != [] && forall i :: 0 <= i < |parts| ==> '.' !in parts[i]
    ensures Split(Join(parts), '.') == parts
  {
    var text := Join(parts);
    IndexIs(text, '.', |parts[0]|);
    if |parts| > 1 {
      SplitOfJoin(parts[1..]);
      assert text[..|parts[0]|] == parts[0] && text[|parts[0]| + 1..] == Join(parts[1..]);
    }
  }

  lemma {:induction false} JoinOfSplit(s: string)
    ensures Join(Split(s, '.')) == s && forall i :: 0 <= i < |Split(s, '.')| ==> '.' !in Split(s, '.')[i]
    decreases |s|
  {
    var i := IndexOf(s, '.');
    if i < |s| {
      JoinOfSplit(s[i + 1..]);
      assert s == s[..i] + "." + s[i + 1..];
      assert Split(s, '.')[1..] == Split(s[i + 1..], '.');
    }
  }

  lemma NumbersHaveNo(numbers: seq<string>, c: char)
    requires !IsDigit(c) && forall i :: 0 <= i < |numbers| ==> Numeric(numbers[i])
    ensures forall i :: 0 <= i < |numbers| ==> c !in numbers[i]
    ensures c != '.' ==> c !in Join(numbers)
  {
    if c != '.' {
      JoinHas(numbers, c);
    }
  }

  /** The first plus and the first hyphen before it divide the text where it was put together. */
  lemma PartsOfWritten(numbers: seq<string>, prerelease: seq<string>, build: Option<string>)
    requires IsWritable(numbers, prerelease, build)
    ensures var text, core := Written(numbers, prerelease, build), Join(numbers);
            var body := core + (if prerelease == [] then "" else "-" + Join(prerelease));
            && IndexOf(text, '+') == |body| <= |text| && text[..|body|] == body && IndexOf(body, '-') == |core|
            && (if build.None? then |body| == |text| else |body| < |text| && text[|body| + 1..] == build.value)
            && (if prerelease == [] then body == core else |core| < |body| && body[|core| + 1..] == Join(prerelease))
            && body[..|core|] == core
  {
    hide IndexOf, Join, Numeric;
    var text, core := Written(numbers, prerelease, build), Join(numbers);
    var body := core + (if prerelease == [] then "" else "-" + Join(prerelease));
    NumbersHaveNo(numbers, '+');
    NumbersHaveNo(numbers, '-');
    IndexIs(text, '+', |body|);
    IndexIs(body, '-', |core|);
  }

  lemma ReadsWritten(numbers: seq<string>, prerelease: seq<string>, build: Option<string>)
    requires IsWritable(numbers, prerelease, build)
    ensures ParseTrimmed(Written(numbers, prerelease, build)) ==
            Some(Version((NumberAt(numbers, 0), NumberAt(numbers, 1), NumberAt(numbers, 2)), prerelease))
  {
    hide IndexOf, Join, Numeric, ToNumber, Split, Written, IsTag;
    PartsOfWritten(numbers, prerelease, build);
    NumbersHaveNo(numbers, '.') by { assert !IsDigit('.'); }
    SplitOfJoin(numbers);
    if prerelease != [] {
      SplitOfJoin(prerelease);
    }
  }

  lemma {:induction false} TrimsBlank(before: string, s: string, after: string)
    requires Blank(before) && Blank(after) && s != "" && !IsSpace(s[0]) && !IsSpace(s[|s| - 1])
    ensures TrimEnd(TrimStart(before + s + after)) == s
    decreases |before| + |after|
  {
    var text := before + s + after;
    if before != "" {
      TrimsBlank(before[1..], s, after);
      assert text[1..] == before[1..] + s + after;
    } else if after != "" {
      TrimsBlank(before, s, after[..|after| - 1]);
      assert text[..|text| - 1] == before + s + after[..|after| - 1];
    } else {
      assert text == s;
    }
  }

  lemma {:induction false} StartIsBlank(s: string)
    ensures exists before :: Blank(before) && s == before + TrimStart(s)
  {
    if s != "" && IsSpace(s[0]) {
      StartIsBlank(s[1..]);
      var before :| Blank(before) && s[1..] == before + TrimStart(s[1..]);
      assert Blank([s[0]] + before) && s == [s[0]] + before + TrimStart(s);
    } else {
      assert Blank("") && s == "" + TrimStart(s);
    }
  }

  lemma {:induction false} EndIsBlank(s: string)
    ensures exists after :: Blank(after) && s == TrimEnd(s) + after
  {
    if s != "" && IsSpace(s[|s| - 1]) {
      EndIsBlank(s[..|s| - 1]);
      var after :| Blank(after) && s[..|s| - 1] == TrimEnd(s[..|s| - 1]) + after;
      assert Blank(after + [s[|s| - 1]]) && s == TrimEnd(s) + (after + [s[|s| - 1]]);
    } else {
      assert Blank("") && s == TrimEnd(s) + "";
    }
  }

  /** Neither end of a written version is white space. */
  lemma WrittenIsTrimmed(numbers: seq<string>, prerelease: seq<string>, build: Option<string>)
    requires IsWritable(numbers, prerelease, build)
    ensures var text := Written(numbers, prerelease, build);
            text != "" && !IsSpace(text[0]) && !IsSpace(text[|text| - 1])
  {
    EndsOfJoin(numbers);
  }

  lemma {:induction false} EndsOfJoin(numbers: seq<string>)
    requires numbers != [] && forall i :: 0 <= i < |numbers| ==> Numeric(numbers[i])
    ensures var text := Join(numbers); text != "" && IsDigit(text[0]) && IsDigit(text[|text| - 1])
  {
    if |numbers| > 1 {
      EndsOfJoin(numbers[1..]);
    }
  }

  /**
   A text that says numbers and parts is read as just them, whatever the build and the white space around:
   missing numbers are 0, the second number is the minor and the third the patch.
   */
  lemma ParseIsTheInverse(text: string, numbers: seq<string>, prerelease: seq<string>, build: Option<string>)
    requires Says(text, numbers, prerelease, build)
    ensures Parse(text) == Some(Version((NumberAt(numbers, 0), NumberAt(numbers, 1), NumberAt(numbers, 2)), prerelease))
  {
    hide Written, ParseTrimmed, TrimStart, TrimEnd, IsSpace;
    var written := Written(numbers, prerelease, build);
    var before, after :| Blank(before) && Blank(after) && text == before + written + after;
    WrittenIsTrimmed(numbers, prerelease, build);
    TrimsBlank(before, written, after);
    ReadsWritten(numbers, prerelease, build);
  }

  lemma ReadIsWritten(text: string)
    requires ParseTrimmed(text).Some?
    ensures exists numbers, prerelease, build :: IsWritable(numbers, prerelease, build) && text == Written(numbers, prerelease, build)
  {
    hide IndexOf, Numeric, ToNumber, Split, IsTag, Join;
    var plus := IndexOf(text, '+');
    var body := text[..plus];
    var dash := IndexOf(body, '-');
    var numbers := Split(body[..dash], '.');
    var prerelease := if dash < |body| then Split(body[dash + 1..], '.') else [];
    var build := if plus < |text| then Some(text[plus + 1..]) else None;
    JoinOfSplit(body[..dash]);
    if dash < |body| {
      JoinOfSplit(body[dash + 1..]);
    }
    assert text == Written(numbers, prerelease, build);
    assert IsWritable(numbers, prerelease, build);
  }

  /** Exactly the texts that say a version are read. */
  lemma ParsesExactly(text: string)
    ensures Parse(text).Some? <==> exists numbers, prerelease, build :: Says(text, numbers, prerelease, build)
  {
    hide Written, ParseTrimmed, TrimStart, TrimEnd, Blank, IsWritable;
    if Parse(text).Some? {
      var trimmed := TrimEnd(TrimStart(text));
      ReadIsWritten(trimmed);
      StartIsBlank(text);
      EndIsBlank(TrimStart(text));
      var before :| Blank(before) && text == before + TrimStart(text);
      var after :| Blank(after) && TrimStart(text) == trimmed + after;
      var numbers, prerelease, build :| IsWritable(numbers, prerelease, build) && trimmed == Written(numbers, prerelease, build);
      assert text == before + Written(numbers, prerelease, build) + after;
      assert Says(text, numbers, prerelease, build);
    }
    forall numbers, prerelease, build | Says(text, numbers, prerelease, build) ensures Parse(text).Some? {
      ParseIsTheInverse(text, numbers, prerelease, build);
    }
  }

  function Decimal(n: nat): string {
    if n < 10 then [('0' as int + n) as char] else Decimal(n / 10) + [('0' as int + n % 10) as char]
  }

  lemma {:induction false} DecimalIsRead(n: nat)
    ensures Numeric(Decimal(n)) && ToNumber(Decimal(n)) == n
  {
    if n >= 10 {
      DecimalIsRead(n / 10);
      assert Decimal(n)[..|Decimal(n)| - 1] == Decimal(n / 10);
    }
  }

  /** Every version with the parts the pattern allows is read back from its text. */
  lemma VersionRoundTrip(v: Version, build: Option<string>)
    requires v.prerelease != [] ==> IsTag(Join(v.prerelease))
    requires forall i :: 0 <= i < |v.prerelease| ==> '.' !in v.prerelease[i]
    requires build.Some? ==> IsTag(build.value)
    ensures Parse(Written([Decimal(v.core.0), Decimal(v.core.1), Decimal(v.core.2)], v.prerelease, build)) == Some(v)
  {
    hide Decimal, Written, IsTag, Join, Numeric, ToNumber, Parse;
    DecimalIsRead(v.core.0);
    DecimalIsRead(v.core.1);
    DecimalIsRead(v.core.2);
    var numbers := [Decimal(v.core.0), Decimal(v.core.1), Decimal(v.core.2)];
    var text := Written(numbers, v.prerelease, build);
    assert Blank("") && text == "" + text + "";
    ParseIsTheInverse(text, numbers, v.prerelease, build);
  }

  // ----- Targeting -----

  datatype Platform = IOS | ANDROID
  datatype Target = Target(platform: Option<Platform>, maxAppVersion: Option<string>)
  datatype Device = Device(id: nat, user: nat, platform: Platform, appVersion: Option<string>)

  /** The comparison of two texts, none when either is not a version. */
  function Compare(a: string, b: string): Option<int> {
    if Parse(a).Some? && Parse(b).Some? then Some(CompareParsed(Parse(a).value, Parse(b).value)) else None
  }

  /** How a pre-release of one number is read. */
  lemma ParseOfOne(t: string)
    requires Numeric(t)
    ensures Parse("1.0.0-" + t) == Some(Version((1, 0, 0), [t]))
  {
    hide ToNumber, Parse;
    OneAndZero();
    var numbers, text := ["1", "0", "0"], "1.0.0-" + t;
    assert numbers[1..] == ["0", "0"] && numbers[1..][1..] == ["0"];
    assert Blank("") && text == "" + Written(numbers, [t], None) + "";
    ParseIsTheInverse(text, numbers, [t], None);
  }

  lemma OneAndZero()
    ensures Numeric("1") && Numeric("0") && ToNumber("1") == 1 && ToNumber("0") == 0
  {
  }

  /** Of two texts that write one number in different ways, each is reported higher than the other. */
  lemma LeadingZerosBreakTheOrder(t: string, u: string)
    requires Numeric(t) && Numeric(u) && t != u && ToNumber(t) == ToNumber(u)
    ensures Compare("1.0.0-" + t, "1.0.0-" + u) == Some(1) && Compare("1.0.0-" + u, "1.0.0-" + t) == Some(1)
  {
    ParseOfOne(t);
    ParseOfOne(u);
  }

  /** For instance 1.0.0-01 and 1.0.0-1. */
  lemma OneLeadingZero()
    ensures Compare("1.0.0-01", "1.0.0-1") == Some(1) && Compare("1.0.0-1", "1.0.0-01") == Some(1)
  {
    OneAndZero();
    assert "01"[..1] == "0";
    LeadingZerosBreakTheOrder("01", "1");
    assert "1.0.0-" + "01" == "1.0.0-01" && "1.0.0-" + "1" == "1.0.0-1";
  }

  /** An empty limit is none. */
  predicate DeviceMatchesTarget(device: Device, target: Option<Target>) {
    target.Some? ==>
      && (target.value.platform.Some? ==> device.platform == target.value.platform.value)
      && (target.value.maxAppVersion.Some? && target.value.maxAppVersion.value != "" ==>
            && device.appVersion.Some?
            && var cmp := Compare(device.appVersion.value, target.value.maxAppVersion.value);
            cmp.Some? && cmp.value < 0)
  }

  /** Targeting is downward closed: whoever runs an older version than a targeted device is targeted too. */
  lemma TargetingIsDownwardClosed(device: Device, older: Device, target: Option<Target>, v: Version, w: Version, limit: Version)
    requires DeviceMatchesTarget(device, target) && older.platform == device.platform
    requires device.appVersion.Some? && Parse(device.appVersion.value) == Some(v) && WellFormed(v)
    requires older.appVersion.Some? && Parse(older.appVersion.value) == Some(w) && WellFormed(w)
    requires target.Some? && target.value.maxAppVersion.Some? && target.value.maxAppVersion.value != "" ==>
               Parse(target.value.maxAppVersion.value) == Some(limit) && WellFormed(limit)
    requires CompareParsed(w, v) <= 0
    ensures DeviceMatchesTarget(older, target)
  {
    if target.Some? && target.value.maxAppVersion.Some? && target.value.maxAppVersion.value != "" {
      PrecedenceIsTransitive(w, v, limit);
    }
  }
}
