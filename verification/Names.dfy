// Package ids, file names and mount points, as strings (apex_manifest.cpp,
// apex_database.cpp and the path builders of apexd.cpp).
module Names {
  const APEX_ROOT := "/apex"
  const APEX_SUFFIX := ".apex"
  const TEMP_SUFFIX := ".tmp"
  const INT32_MIN := -0x8000_0000
  const INT32_MAX := 0x7fff_ffff

  // The manifest's version field is a protobuf int64.
  type Version = v: int | -0x8000_0000_0000_0000 <= v < 0x8000_0000_0000_0000

  datatype Option<+T> = None | Some(value: T)

  datatype Manifest = Manifest(name: string, version: Version)

  // static_cast<uint64_t>: negative versions wrap to the top of the range.
  function Unsigned(v: Version): nat {
    if v < 0 then v + 0x1_0000_0000_0000_0000 else v
  }

  lemma UnsignedInjective(v: Version, w: Version)
    ensures Unsigned(v) == Unsigned(w) <==> v == w
  {
  }

  /** Comparing versions as uint64_t is comparing numbers, but every negative version is above all others. */
  lemma UnsignedOrder(v: Version, w: Version)
    ensures Unsigned(v) < Unsigned(w) <==> if v < 0 || w < 0 then w < 0 && (v >= 0 || v < w) else v < w
  {
  }

  /** Decimal numbers */

  predicate IsDigit(c: char) {
    '0' <= c <= '9'
  }

  predicate AllDigits(s: string) {
    forall i | 0 <= i < |s| :: IsDigit(s[i])
  }

  function Digit(d: nat): (c: char)
    requires d < 10
    ensures IsDigit(c) && DigitValue(c) == d
  {
    "0123456789"[d]
  }

  function DigitValue(c: char): nat
    requires IsDigit(c)
  {
    c as int - '0' as int
  }

  function NatToString(n: nat): (s: string)
    ensures s != [] && AllDigits(s)
  {
    if n < 10 then [Digit(n)] else NatToString(n / 10) + [Digit(n % 10)]
  }

  // std::to_string
  function ToString(v: int): string {
    if v < 0 then "-" + NatToString(-v) else NatToString(v)
  }

  function DigitsToNat(s: string): nat
    requires AllDigits(s)
  {
    if s == [] then 0 else DigitsToNat(s[..|s| - 1]) * 10 + DigitValue(s[|s| - 1])
  }

  // android::base::ParseInt into an int: decimal text whose value fits 32 bits.
  function ParseInt(s: string): Option<int> {
    var negative := s != [] && s[0] == '-';
    var digits := if negative then s[1..] else s;
    if digits == [] || !AllDigits(digits) then None
    else
      var n: int := DigitsToNat(digits);
      var v := if negative then -n else n;
      if INT32_MIN <= v <= INT32_MAX then Some(v) else None
  }

  lemma {:induction false} DigitsRoundTrip(n: nat)
    ensures DigitsToNat(NatToString(n)) == n
  {
    if n >= 10 {
      DigitsRoundTrip(n / 10);
      var s := NatToString(n);
      assert s[..|s| - 1] == NatToString(n / 10);
    }
  }

  lemma ParseIntToString(v: int)
    ensures ParseInt(ToString(v)) == if INT32_MIN <= v <= INT32_MAX then Some(v) else None
  {
    var n: nat := if v < 0 then -v else v;
    var digits := NatToString(n);
    DigitsRoundTrip(n);
    if v < 0 {
      assert ToString(v)[0] == '-' && ToString(v)[1..] == digits;
    } else {
      assert ToString(v) == digits && IsDigit(digits[0]);
    }
  }

  lemma ToStringInjective(v: int, w: int)
    requires ToString(v) == ToString(w)
    ensures v == w
  {
    DigitsRoundTrip(if v < 0 then -v else v);
    DigitsRoundTrip(if w < 0 then -w else w);
    if v < 0 {
      assert ToString(v)[1..] == NatToString(-v);
    }
    if w < 0 {
      assert ToString(w)[1..] == NatToString(-w);
    }
    assert v >= 0 ==> IsDigit(ToString(v)[0]);
    assert w >= 0 ==> IsDigit(ToString(w)[0]);
  }

  lemma ToStringChars(v: int)
    ensures ToString(v) != []
    ensures '@' !in ToString(v) && '/' !in ToString(v)
    ensures IsDigit(ToString(v)[|ToString(v)| - 1])
  {
    var n: nat := if v < 0 then -v else v;
    assert forall c | c in NatToString(n) :: IsDigit(c);
  }

  /** Splitting */

  function IndexOf(s: string, c: char): (i: nat)
    requires c in s
    ensures i < |s| && s[i] == c && c !in s[..i]
  {
    if s[0] == c then 0 else 1 + IndexOf(s[1..], c)
  }

  // android::base::Split with one delimiter; empty tokens are kept.
  function Split(s: string, c: char): (tokens: seq<string>)
    ensures c !in s ==> tokens == [s]
    ensures c in s ==> |tokens| >= 2
    decreases |s|
  {
    if c !in s then [s] else [s[..IndexOf(s, c)]] + Split(s[IndexOf(s, c) + 1..], c)
  }

  lemma SplitAtFirst(a: string, c: char, b: string)
    requires c !in a
    ensures Split(a + [c] + b, c) == [a] + Split(b, c)
  {
    var s := a + [c] + b;
    assert s[|a|] == c;
    var i := IndexOf(s, c);
    assert forall k | 0 <= k < |a| :: s[k] == a[k] && s[k] != c;
    assert forall k | 0 <= k < i :: s[..i][k] == s[k] && s[k] != c;
    assert i == |a|;
    assert s[..i] == a && s[i + 1..] == b;
  }

  function LastIndexOf(s: string, c: char): (i: nat)
    requires c in s
    ensures i < |s| && s[i] == c && c !in s[i + 1..]
  {
    if s[|s| - 1] == c then |s| - 1
    else
      assert s == s[..|s| - 1] + [s[|s| - 1]];
      LastIndexOf(s[..|s| - 1], c)
  }

  lemma LastIndexOfConcat(a: string, c: char, b: string)
    requires c !in b
    ensures c in a + [c] + b && LastIndexOf(a + [c] + b, c) == |a|
  {
    var s := a + [c] + b;
    assert s[|a|] == c;
    var i := LastIndexOf(s, c);
    assert forall k | |a| < k < |s| :: s[k] == b[k - |a| - 1];
  }

  // fs::path::filename
  function PathFileName(path: string): string {
    if '/' in path then path[LastIndexOf(path, '/') + 1..] else path
  }

  // fs::path::parent_path
  function ParentPath(path: string): string {
    if '/' !in path then ""
    else if LastIndexOf(path, '/') == 0 then "/"
    else path[..LastIndexOf(path, '/')]
  }

  /** Ids and paths */

  // GetPackageId
  function PackageId(m: Manifest): string {
    m.name + "@" + ToString(m.version)
  }

  // The file name that StageDestPath and the backup give to an APEX.
  function ApexFileName(m: Manifest): string {
    PackageId(m) + APEX_SUFFIX
  }

  function PackageMountPoint(m: Manifest): string {
    APEX_ROOT + "/" + PackageId(m)
  }

  function TempMountPoint(m: Manifest): string {
    PackageMountPoint(m) + TEMP_SUFFIX
  }

  function TempDeviceName(m: Manifest): string {
    PackageId(m) + TEMP_SUFFIX
  }

  function ActiveMountPoint(name: string): string {
    APEX_ROOT + "/" + name
  }

  predicate EndsWith(s: string, suffix: string): (r: bool)
    ensures r <==> exists start :: s == start + suffix
  {
    assert |s| >= |suffix| && s[|s| - |suffix|..] == suffix ==> s == s[..|s| - |suffix|] + suffix;
    |s| >= |suffix| && s[|s| - |suffix|..] == suffix
  }

  predicate StartsWith(s: string, prefix: string): (r: bool)
    ensures r <==> prefix <= s
  {
    |s| >= |prefix| && s[..|prefix|] == prefix
  }

  predicate IsActiveMountPoint(mountPoint: string) {
    '@' !in mountPoint
  }

  // parseMountPoint: the version is -1 when there is none that fits an int.
  function ParseMountPoint(mountPoint: string): (string, int) {
    var packageId := PathFileName(mountPoint);
    var tokens := Split(packageId, '@');
    if |tokens| == 2 then
      (tokens[0], match ParseInt(tokens[1]) case Some(v) => v case None => -1)
    else (packageId, -1)
  }

  // parseMountInfo: the first two fields of a line of /proc/mounts.
  function ParseMountInfo(line: string): (string, string) {
    var tokens := Split(line, ' ');
    if |tokens| < 2 then ("", "") else (tokens[0], tokens[1])
  }

  /** Distinct packages never share an id, whatever characters the names hold. */
  lemma PackageIdInjective(m: Manifest, n: Manifest)
    requires PackageId(m) == PackageId(n)
    ensures m == n
  {
    hide ToString, LastIndexOf;
    ToStringChars(m.version);
    ToStringChars(n.version);
    LastIndexOfConcat(m.name, '@', ToString(m.version));
    LastIndexOfConcat(n.name, '@', ToString(n.version));
    assert PackageId(m) == m.name + ['@'] + ToString(m.version);
    assert PackageId(n) == n.name + ['@'] + ToString(n.version);
    assert m.name == PackageId(m)[..|m.name|] == PackageId(n)[..|n.name|] == n.name;
    assert ToString(m.version) == PackageId(m)[|m.name| + 1..] == PackageId(n)[|n.name| + 1..] == ToString(n.version);
    ToStringInjective(m.version, n.version);
  }

  lemma ApexFileNameInjective(m: Manifest, n: Manifest)
    requires ApexFileName(m) == ApexFileName(n)
    ensures m == n
  {
    assert PackageId(m) == ApexFileName(m)[..|ApexFileName(m)| - |APEX_SUFFIX|];
    assert PackageId(n) == ApexFileName(n)[..|ApexFileName(n)| - |APEX_SUFFIX|];
    PackageIdInjective(m, n);
  }

  lemma PackageMountPointInjective(m: Manifest, n: Manifest)
    requires PackageMountPoint(m) == PackageMountPoint(n)
    ensures m == n
  {
    assert PackageId(m) == PackageMountPoint(m)[|APEX_ROOT| + 1..];
    assert PackageId(n) == PackageMountPoint(n)[|APEX_ROOT| + 1..];
    PackageIdInjective(m, n);
  }

  /** A temporary device or mount point is never the permanent one of any package. */
  lemma TempNamesDisjoint(m: Manifest, n: Manifest)
    ensures TempDeviceName(m) != PackageId(n)
    ensures TempMountPoint(m) != PackageMountPoint(n)
  {
    ToStringChars(n.version);
    var id, mp := PackageId(n), PackageMountPoint(n);
    assert id[|id| - 1] == mp[|mp| - 1] == ToString(n.version)[|ToString(n.version)| - 1];
    assert TempDeviceName(m)[|TempDeviceName(m)| - 1] == 'p';
    assert TempMountPoint(m)[|TempMountPoint(m)| - 1] == 'p';
  }

  /** A package mount point holds an '@', so it is no package's active point unless names hold one. */
  lemma MountPointsAreNotActivePoints(m: Manifest, name: string)
    requires '@' !in name
    ensures PackageMountPoint(m) != ActiveMountPoint(name)
    ensures TempMountPoint(m) != ActiveMountPoint(name)
    ensures IsActiveMountPoint(ActiveMountPoint(name)) && !IsActiveMountPoint(PackageMountPoint(m))
  {
    var at := |APEX_ROOT| + 1 + |m.name|;
    assert PackageMountPoint(m)[at] == TempMountPoint(m)[at] == '@';
  }

  lemma PackagePathParts(m: Manifest)
    requires '/' !in m.name
    ensures PathFileName(PackageMountPoint(m)) == PackageId(m)
    ensures ParentPath(PackageMountPoint(m)) == APEX_ROOT
  {
    ToStringChars(m.version);
    LastIndexOfConcat(APEX_ROOT, '/', PackageId(m));
    assert PackageMountPoint(m) == APEX_ROOT + ['/'] + PackageId(m);
  }

  // What a mount point tells of a package without '@' and '/' in its name.
  lemma ParsedPackage(m: Manifest)
    requires '@' !in m.name && '/' !in m.name
    ensures ParseMountPoint(PackageMountPoint(m)) == (m.name, if -0x8000_0000 <= m.version <= 0x7fff_ffff then m.version else -1)
  {
    ToStringChars(m.version);
    PackagePathParts(m);
    assert PackageId(m) == m.name + ['@'] + ToString(m.version);
    SplitAtFirst(m.name, '@', ToString(m.version));
    ParseIntToString(m.version);
  }

  /** The exact condition under which a mount point tells name and version back. */
  lemma MountPointRoundTrip(m: Manifest)
    ensures ParseMountPoint(PackageMountPoint(m)) == (m.name, m.version)
       <==> '@' !in m.name && '/' !in m.name && -0x8000_0000 <= m.version <= 0x7fff_ffff
  {
    ToStringChars(m.version);
    var parsed := ParseMountPoint(PackageMountPoint(m));
    if '/' in m.name {
      SlashInNameLosesPrefix(m);
    } else {
      PackagePathParts(m);
      assert PackageId(m) == m.name + ['@'] + ToString(m.version);
      if '@' !in m.name {
        ParsedPackage(m);
      } else {
        AtInNameMakesThreeTokens(m.name, ToString(m.version));
        assert |parsed.0| > |m.name|;
      }
    }
  }

  lemma AtInNameMakesThreeTokens(name: string, rest: string)
    requires '@' in name
    ensures |Split(name + ['@'] + rest, '@')| >= 3
  {
    var i := IndexOf(name, '@');
    var tail := name[i + 1..] + ['@'] + rest;
    assert tail[|name| - i - 1] == '@';
    assert name + ['@'] + rest == name[..i] + ['@'] + tail;
    SplitAtFirst(name[..i], '@', tail);
  }

  lemma SlashInNameLosesPrefix(m: Manifest)
    requires '/' in m.name
    ensures ParseMountPoint(PackageMountPoint(m)).0 != m.name
  {
    ToStringChars(m.version);
    var i := LastIndexOf(m.name, '/');
    var last, v := m.name[i + 1..], ToString(m.version);
    var before := APEX_ROOT + "/" + m.name[..i];
    assert PackageMountPoint(m) == before + ['/'] + (last + ['@'] + v);
    LastIndexOfConcat(before, '/', last + ['@'] + v);
    assert PathFileName(PackageMountPoint(m)) == last + ['@'] + v;
    if '@' in last {
      AtInNameMakesThreeTokens(last, v);
      assert '/' !in last + ['@'] + v;
    } else {
      SplitAtFirst(last, '@', v);
      assert |last| < |m.name|;
    }
  }

  /** A line of the mount table tells block device and mount point back exactly if neither holds a space. */
  lemma MountLineRoundTrip(block: string, mountPoint: string, rest: string)
    ensures ParseMountInfo(block + [' '] + mountPoint + [' '] + rest) == (block, mountPoint)
       <==> ' ' !in block && ' ' !in mountPoint
  {
    var tail := mountPoint + [' '] + rest;
    var line := block + [' '] + tail;
    assert block + [' '] + mountPoint + [' '] + rest == line;
    assert line[|block|] == ' ' && tail[|mountPoint|] == ' ';
    if ' ' in block {
      FirstTokenShorter(block, tail);
    } else {
      SplitAtFirst(block, ' ', tail);
      if ' ' in mountPoint {
        FirstTokenShorter(mountPoint, rest);
      } else {
        SplitAtFirst(mountPoint, ' ', rest);
      }
    }
  }

  /** Two fields are enough, one is not. */
  lemma ShortMountLine(block: string, mountPoint: string)
    requires ' ' !in block && ' ' !in mountPoint
    ensures ParseMountInfo(block + [' '] + mountPoint) == (block, mountPoint) && ParseMountInfo(block) == ("", "")
  {
    SplitAtFirst(block, ' ', mountPoint);
  }

  lemma FirstTokenShorter(a: string, b: string)
    requires ' ' in a
    ensures |Split(a + [' '] + b, ' ')| >= 2 && Split(a + [' '] + b, ' ')[0] != a
  {
    var i := IndexOf(a, ' ');
    assert a + [' '] + b == a[..i] + [' '] + (a[i + 1..] + [' '] + b);
    SplitAtFirst(a[..i], ' ', a[i + 1..] + [' '] + b);
    assert (a[i + 1..] + [' '] + b)[|a| - i - 1] == ' ';
  }
}
