/** Where a record lives, and the names its writers use before it does. A path is its components. */
module RecordPaths {
  import opened Bytes

  type Path = seq<string>

  datatype PathError = ShortKey

  function Digit(n: nat): (c: char)
    requires n < 16
    ensures c != '.' && c != '_'
  {
    "0123456789abcdef"[n]
  }

  /** `bytes.hex()` */
  function Hex(bytes: seq<Byte>): (h: string)
    ensures |h| == 2 * |bytes|
    ensures '.' !in h
  {
    if bytes == [] then ""
    else [Digit(bytes[0] as nat / 16), Digit(bytes[0] as nat % 16)] + Hex(bytes[1..])
  }

  /** `str(n)` */
  function Decimal(n: nat): (d: string)
    ensures d != "" && '.' !in d
  {
    if n < 10 then [Digit(n)] else Decimal(n / 10) + [Digit(n % 10)]
  }

  function FromBigEndian(bytes: seq<Byte>): nat {
    if bytes == [] then 0 else 256 * FromBigEndian(bytes[..|bytes| - 1]) + bytes[|bytes| - 1] as nat
  }

  function Prefix(s: string, n: nat): string {
    if n <= |s| then s[..n] else s
  }

  /** s[3:5] */
  function Middle(s: string): string {
    Prefix(if 3 <= |s| then s[3..] else "", 2)
  }

  /** `record_path` */
  function RecordPath(root: Path, key: seq<Byte>, namespace: string): Result<Path, PathError> {
    if |key| < 5 then Err(ShortKey)
    else
      var hash := Hex(key[..|key| - 4]);
      var group := FromBigEndian(key[|key| - 4..]);
      Ok(root + [namespace, Prefix(hash, 3), Middle(hash) + "_g" + Decimal(group), hash + ".kvssd"])
  }

  /** path.with_name(f".{path.name}.{pid}.{thread}.tmp") */
  function Temporary(path: Path, pid: nat, thread: nat): Path
    requires path != []
  {
    path[..|path| - 1] + [TemporaryName(path[|path| - 1], pid, thread)]
  }

  function TemporaryName(name: string, pid: nat, thread: nat): string {
    "." + name + "." + Decimal(pid) + "." + Decimal(thread) + ".tmp"
  }

  // ----- an example

  lemma SampleHex(bytes: seq<Byte>)
    requires bytes == [0xAB, 0xCD, 0xEF, 0x01]
    ensures Hex(bytes) == "abcdef01"
  {
    assert bytes[1..] == [0xCD, 0xEF, 0x01] && bytes[1..][1..] == [0xEF, 0x01] && bytes[1..][1..][1..] == [0x01];
    assert Hex([0x01 as Byte][1..]) == "";
    assert Hex([0x01]) == "01";
    assert Hex([0xEF, 0x01]) == "ef01";
    assert Hex([0xCD, 0xEF, 0x01]) == "cdef01";
  }

  lemma SampleGroup(bytes: seq<Byte>)
    requires bytes == [0x00, 0x00, 0x01, 0x2C]
    ensures FromBigEndian(bytes) == 300
  {
    assert bytes[..3] == [0x00, 0x00, 0x01] && bytes[..3][..2] == [0x00, 0x00] && bytes[..3][..2][..1] == [0x00];
    assert FromBigEndian(bytes[..3][..2][..1][..0]) == 0;
    assert FromBigEndian(bytes[..3][..2][..1]) == 0;
    assert FromBigEndian(bytes[..3][..2]) == 0;
    assert FromBigEndian(bytes[..3]) == 1;
  }

  lemma SampleDecimals()
    ensures Decimal(300) == "300" && Decimal(12) == "12" && Decimal(7) == "7"
  {
    assert Decimal(3) == "3" && Decimal(30) == "30" && Decimal(1) == "1";
  }

  /** A hash of four bytes and group 300: directories by the first digits, then the hash; and a temporary beside it. */
  lemma SamplePath(root: Path, key: seq<Byte>, namespace: string)
    requires key == [0xAB, 0xCD, 0xEF, 0x01, 0x00, 0x00, 0x01, 0x2C]
    ensures RecordPath(root, key, namespace) == Ok(root + [namespace, "abc", "de_g300", "abcdef01.kvssd"])
    ensures Temporary(root + [namespace, "abc", "de_g300", "abcdef01.kvssd"], 12, 7)
         == root + [namespace, "abc", "de_g300", ".abcdef01.kvssd.12.7.tmp"]
  {
    hide Hex, FromBigEndian, Decimal;
    SampleHex(key[..4]);
    SampleGroup(key[4..]);
    SampleDecimals();
    assert Prefix("abcdef01", 3) == "abc" && Middle("abcdef01") == "de";
    assert "de" + "_g" + "300" == "de_g300" && "abcdef01" + ".kvssd" == "abcdef01.kvssd";
    assert key[..|key| - 4] == key[..4] && key[|key| - 4..] == key[4..];
    var path := root + [namespace, "abc", "de_g300", "abcdef01.kvssd"];
    assert path[..|path| - 1] == root + [namespace, "abc", "de_g300"];
    assert "." + "abcdef01.kvssd" + "." + "12" + "." + "7" + ".tmp" == ".abcdef01.kvssd.12.7.tmp";
  }

  // ----- different keys, different paths

  lemma DigitInjective(a: nat, b: nat)
    requires a < 16 && b < 16 && Digit(a) == Digit(b)
    ensures a == b
  {
    var d := "0123456789abcdef";
    assert forall i, j :: 0 <= i < j < 16 ==> d[i] != d[j];
  }

  lemma {:induction false} HexInjective(a: seq<Byte>, b: seq<Byte>)
    requires Hex(a) == Hex(b)
    ensures a == b
  {
    if a != [] && b != [] {
      assert Hex(a)[0] == Hex(b)[0] && Hex(a)[1] == Hex(b)[1];
      DigitInjective(a[0] as nat / 16, b[0] as nat / 16);
      DigitInjective(a[0] as nat % 16, b[0] as nat % 16);
      assert Hex(a)[2..] == Hex(a[1..]) && Hex(b)[2..] == Hex(b[1..]);
      HexInjective(a[1..], b[1..]);
      assert a == [a[0]] + a[1..] && b == [b[0]] + b[1..];
    } else {
      assert |Hex(a)| == 2 * |a| && |Hex(b)| == 2 * |b|;
    }
  }

  lemma {:induction false} DecimalInjective(a: nat, b: nat)
    requires Decimal(a) == Decimal(b)
    ensures a == b
  {
    var d, e := Decimal(a), Decimal(b);
    assert d[|d| - 1] == Digit(a % 10) && e[|e| - 1] == Digit(b % 10);
    DigitInjective(a % 10, b % 10);
    if 10 <= a && 10 <= b {
      assert d[..|d| - 1] == Decimal(a / 10) && e[..|e| - 1] == Decimal(b / 10);
      DecimalInjective(a / 10, b / 10);
    }
  }

  lemma {:induction false} BigEndianInjective(a: seq<Byte>, b: seq<Byte>)
    requires |a| == |b| && FromBigEndian(a) == FromBigEndian(b)
    ensures a == b
  {
    if a != [] {
      var n := |a| - 1;
      assert a[n] == b[n] && FromBigEndian(a[..n]) == FromBigEndian(b[..n]);
      BigEndianInjective(a[..n], b[..n]);
      assert a == a[..n] + [a[n]] && b == b[..n] + [b[n]];
    }
  }

  lemma SameSuffix(a: string, b: string, suffix: string)
    requires a + suffix == b + suffix
    ensures a == b
  {
    assert |a| == |b|;
    assert (a + suffix)[..|a|] == a && (b + suffix)[..|b|] == b;
  }

  lemma SamePrefix(prefix: string, a: string, b: string)
    requires prefix + a == prefix + b
    ensures a == b
  {
    assert (prefix + a)[|prefix|..] == a && (prefix + b)[|prefix|..] == b;
  }

  /** Within a namespace, a path determines its key. */
  lemma PathInjective(root: Path, namespace: string, a: seq<Byte>, b: seq<Byte>)
    requires RecordPath(root, a, namespace).Ok? && RecordPath(root, a, namespace) == RecordPath(root, b, namespace)
    ensures a == b
  {
    var p, n := RecordPath(root, a, namespace).value, |root|;
    var h, i := Hex(a[..|a| - 4]), Hex(b[..|b| - 4]);
    var g, f := FromBigEndian(a[|a| - 4..]), FromBigEndian(b[|b| - 4..]);
    assert p[n + 3] == h + ".kvssd" == i + ".kvssd";
    SameSuffix(h, i, ".kvssd");
    HexInjective(a[..|a| - 4], b[..|b| - 4]);
    assert p[n + 2] == (Middle(h) + "_g") + Decimal(g) == (Middle(h) + "_g") + Decimal(f);
    SamePrefix(Middle(h) + "_g", Decimal(g), Decimal(f));
    DecimalInjective(g, f);
    BigEndianInjective(a[|a| - 4..], b[|b| - 4..]);
    assert a == a[..|a| - 4] + a[|a| - 4..] && b == b[..|b| - 4] + b[|b| - 4..];
  }

  // ----- temporaries

  /** A temporary is never the final path of any record. */
  lemma TemporaryIsNoRecord(path: Path, pid: nat, thread: nat, root: Path, key: seq<Byte>, namespace: string)
    requires path != [] && RecordPath(root, key, namespace).Ok?
    ensures Temporary(path, pid, thread) != RecordPath(root, key, namespace).value
  {
    var t, r := Temporary(path, pid, thread), RecordPath(root, key, namespace).value;
    var last, name := t[|t| - 1], r[|r| - 1];
    assert last[|last| - 1] == 'p' && name[|name| - 1] == 'd';
  }

  /** Up to the first dot, a string determines the rest. */
  lemma SplitAtDot(a: string, x: string, b: string, y: string)
    requires '.' !in a && '.' !in b && a + "." + x == b + "." + y
    ensures a == b && x == y
  {
    var s := a + "." + x;
    assert s[|a|] == '.' && s[|b|] == '.';
    if |a| < |b| {
      assert false;
    } else if |b| < |a| {
      assert false;
    }
    assert s[..|a|] == a && s[..|b|] == b && s[|a| + 1..] == x && s[|b| + 1..] == y;
  }

  lemma NameParts(hash: string, pid: nat, thread: nat)
    ensures TemporaryName(hash + ".kvssd", pid, thread)
         == "." + (hash + "." + ("kvssd" + "." + (Decimal(pid) + "." + (Decimal(thread) + "." + "tmp"))))
  {
    hide Decimal;
  }

  lemma NamesApart(h: string, pid: nat, thread: nat, i: string, otherPid: nat, otherThread: nat)
    requires '.' !in h && '.' !in i
    requires TemporaryName(h + ".kvssd", pid, thread) == TemporaryName(i + ".kvssd", otherPid, otherThread)
    ensures h == i && pid == otherPid && thread == otherThread
  {
    hide Decimal, TemporaryName;
    NameParts(h, pid, thread);
    NameParts(i, otherPid, otherThread);
    var t, u := Decimal(thread) + "." + "tmp", Decimal(otherThread) + "." + "tmp";
    var x, y := Decimal(pid) + "." + t, Decimal(otherPid) + "." + u;
    SamePrefix(".", h + "." + ("kvssd" + "." + x), i + "." + ("kvssd" + "." + y));
    SplitAtDot(h, "kvssd" + "." + x, i, "kvssd" + "." + y);
    SplitAtDot("kvssd", x, "kvssd", y);
    SplitAtDot(Decimal(pid), t, Decimal(otherPid), u);
    SplitAtDot(Decimal(thread), "tmp", Decimal(otherThread), "tmp");
    DecimalInjective(pid, otherPid);
    DecimalInjective(thread, otherThread);
  }

  /** Writers of different records, in different processes or in different threads never share a temporary. */
  lemma TemporariesApart(
    root: Path, namespace: string, a: seq<Byte>, pid: nat, thread: nat, b: seq<Byte>, otherPid: nat, otherThread: nat)
    requires RecordPath(root, a, namespace).Ok? && RecordPath(root, b, namespace).Ok?
    requires Temporary(RecordPath(root, a, namespace).value, pid, thread)
          == Temporary(RecordPath(root, b, namespace).value, otherPid, otherThread)
    ensures a == b && pid == otherPid && thread == otherThread
  {
    hide Decimal, TemporaryName, Hex, Middle, FromBigEndian;
    var p, q := RecordPath(root, a, namespace).value, RecordPath(root, b, namespace).value;
    var s, t := Temporary(p, pid, thread), Temporary(q, otherPid, otherThread);
    var n := |root| + 3;
    assert p[n] == Hex(a[..|a| - 4]) + ".kvssd" && q[n] == Hex(b[..|b| - 4]) + ".kvssd";
    assert s[n] == TemporaryName(p[n], pid, thread) && t[n] == TemporaryName(q[n], otherPid, otherThread);
    NamesApart(Hex(a[..|a| - 4]), pid, thread, Hex(b[..|b| - 4]), otherPid, otherThread);
    assert p[..n] == s[..n] == t[..n] == q[..n];
    assert p == p[..n] + [p[n]] && q == q[..n] + [q[n]];
    PathInjective(root, namespace, a, b);
  }
}
