/**
  Network discovery: IPv4 addresses as four bytes, their big-endian 32-bit
  numbers, their dotted-decimal text, and the scan that probes every address
  of the configured ranges and keeps the ones whose ping was answered.  The
  ping itself is a parameter (`alive`).
*/
module Scanner {
  import opened Wrappers
  import opened Text
  import opened Numerals
  import opened Ranges

  type Byte = x: int | 0 <= x < 256

  const AddressCount: int := 0x1_0000_0000

  /** An IPv4 address, most significant byte first (network order). */
  datatype IPv4 = IPv4(b0: Byte, b1: Byte, b2: Byte, b3: Byte)

  /** ConvertIpToNumber: the address bytes read big-endian as an unsigned 32-bit number. */
  function IpToNumber(ip: IPv4): (n: int)
    ensures 0 <= n < AddressCount
  {
    ip.b0 * 0x100_0000 + ip.b1 * 0x1_0000 + ip.b2 * 0x100 + ip.b3
  }

  /** ConvertNumberToIp: the number is cut to its low 32 bits ((uint) cast) and written
      back as four bytes, most significant first. */
  function NumberToIp(n: int): (ip: IPv4)
  {
    var u := n % AddressCount;
    IPv4(u / 0x100_0000, (u / 0x1_0000) % 0x100, (u / 0x100) % 0x100, u % 0x100)
  }

  lemma NumberToIpToNumber(ip: IPv4)
    ensures NumberToIp(IpToNumber(ip)) == ip
  {
    var n := IpToNumber(ip);
    assert n % AddressCount == n;
    assert n / 0x100_0000 == ip.b0;
    assert n / 0x1_0000 == ip.b0 * 0x100 + ip.b1;
    assert n / 0x100 == ip.b0 * 0x1_0000 + ip.b1 * 0x100 + ip.b2;
  }

  /** number -> address -> number is the identity on 32-bit numbers, and reduces any
      other number modulo 2^32. */
  lemma IpToNumberToIp(n: int)
    ensures IpToNumber(NumberToIp(n)) == n % AddressCount
    ensures 0 <= n < AddressCount ==> IpToNumber(NumberToIp(n)) == n
  {
    var u := n % AddressCount;
    var q1 := u / 0x100;
    var q2 := q1 / 0x100;
    var q3 := q2 / 0x100;
    assert u / 0x1_0000 == q2;
    assert u / 0x100_0000 == q3;
  }

  /** Distinct addresses have distinct numbers. */
  lemma IpToNumberInjective(x: IPv4, y: IPv4)
    ensures IpToNumber(x) == IpToNumber(y) <==> x == y
  {
    if IpToNumber(x) == IpToNumber(y) {
      NumberToIpToNumber(x);
      NumberToIpToNumber(y);
    }
  }

  /** IPAddress.ToString for an IPv4 address: four decimal numbers joined by dots. */
  function FormatAddress(ip: IPv4): (s: string)
    ensures ' ' !in s && '/' !in s
  {
    var parts := [NatToString(ip.b0), NatToString(ip.b1), NatToString(ip.b2), NatToString(ip.b3)];
    assert forall k | 0 <= k < 4 :: ' ' !in parts[k] && '/' !in parts[k] && '.' !in parts[k];
    JoinAvoids(parts, ".", ' ');
    JoinAvoids(parts, ".", '/');
    Join(".", parts)
  }

  lemma {:induction false} JoinAvoids(parts: seq<string>, sep: string, c: char)
    requires c !in sep && forall k | 0 <= k < |parts| :: c !in parts[k]
    ensures c !in Join(sep, parts)
  {
    if |parts| > 1 {
      JoinAvoids(parts[1..], sep, c);
    }
  }

  /** IPAddress.Parse restricted to dotted-decimal IPv4: four dot-separated groups of
      decimal digits, each at most 255. */
  function ParseAddress(s: string): (r: Option<IPv4>)
    ensures r.Some? ==> |Split(s, '.')| == 4
  {
    var groups := Split(s, '.');
    if |groups| == 4 && forall k | 0 <= k < 4 :: ByteText(groups[k]) then
      Some(IPv4(DigitsValue(groups[0]), DigitsValue(groups[1]), DigitsValue(groups[2]), DigitsValue(groups[3])))
    else
      None
  }

  predicate ByteText(g: string)
  {
    |g| >= 1 && AllDigits(g) && DigitsValue(g) < 256
  }

  /** A printed address is not blank and splits at its dots into its four decimal bytes. */
  lemma FormattedAddressSplit(x: IPv4)
    ensures Split(FormatAddress(x), '.') == [NatToString(x.b0), NatToString(x.b1), NatToString(x.b2), NatToString(x.b3)]
    ensures !IsBlank(FormatAddress(x))
  {
    var parts := [NatToString(x.b0), NatToString(x.b1), NatToString(x.b2), NatToString(x.b3)];
    assert forall k | 0 <= k < 4 :: '.' !in parts[k];
    SplitJoin(parts, '.');
    assert [('.')] == ".";
    var s := FormatAddress(x);
    assert s == parts[0] + "." + Join(".", parts[1..]);
    assert s[0] == parts[0][0];
    assert IsDigit(s[0]);
    SignOrDigitIsNotSpace(s[0]);
  }

  /** Reading back the text of an address gives the address. */
  lemma ParseFormat(ip: IPv4)
    ensures ParseAddress(FormatAddress(ip)) == Some(ip)
  {
    FormattedAddressSplit(ip);
    DigitsOfNat(ip.b0);
    DigitsOfNat(ip.b1);
    DigitsOfNat(ip.b2);
    DigitsOfNat(ip.b3);
  }

  /** Distinct addresses have distinct texts. */
  lemma FormatInjective(x: IPv4, y: IPv4)
    ensures FormatAddress(x) == FormatAddress(y) <==> x == y
  {
    if FormatAddress(x) == FormatAddress(y) {
      ParseFormat(x);
      ParseFormat(y);
    }
  }

  /** The texts of the addresses numbered lo..hi, in ascending order. */
  function RangeProbes(lo: int, hi: int): (ps: seq<string>)
    ensures |ps| == |Interval(lo, hi)|
    ensures forall k | 0 <= k < |ps| :: ps[k] == FormatAddress(NumberToIp(lo + k))
  {
    seq(|Interval(lo, hi)|, k requires 0 <= k < |Interval(lo, hi)| => FormatAddress(NumberToIp(Interval(lo, hi)[k])))
  }

  /** The k-th probe of a 32-bit range is the address numbered lo + k. */
  lemma ProbeAt(lo: int, hi: int, k: nat)
    requires 0 <= lo && hi < AddressCount && k < |RangeProbes(lo, hi)|
    ensures lo + k <= hi && RangeProbes(lo, hi)[k] == FormatAddress(NumberToIp(lo + k))
    ensures IpToNumber(NumberToIp(lo + k)) == lo + k
  {
    IpToNumberToIp(lo + k);
  }

  /** Every address of a 32-bit range is probed, and no address outside it is. */
  lemma RangeProbesExact(lo: int, hi: int, ip: IPv4)
    requires 0 <= lo && hi < AddressCount
    ensures FormatAddress(ip) in RangeProbes(lo, hi) <==> lo <= IpToNumber(ip) <= hi
  {
    var ps := RangeProbes(lo, hi);
    var n := IpToNumber(ip);
    if FormatAddress(ip) in ps {
      var k :| 0 <= k < |ps| && ps[k] == FormatAddress(ip);
      var m := NumberToIp(lo + k);
      ProbeAt(lo, hi, k);
      FormatInjective(ip, m);
      assert ip == m;
    }
    if lo <= n <= hi {
      NumberToIpToNumber(ip);
      assert ps[n - lo] == FormatAddress(ip);
    }
  }

  /** No address of a 32-bit range is probed twice. */
  lemma RangeProbesOnce(lo: int, hi: int)
    requires 0 <= lo && hi < AddressCount
    ensures forall i, j | 0 <= i < j < |RangeProbes(lo, hi)| :: RangeProbes(lo, hi)[i] != RangeProbes(lo, hi)[j]
  {
    var ps := RangeProbes(lo, hi);
    forall i, j | 0 <= i < j < |ps| ensures ps[i] != ps[j] {
      var x := NumberToIp(lo + i);
      var y := NumberToIp(lo + j);
      IpToNumberToIp(lo + i);
      IpToNumberToIp(lo + j);
      assert IpToNumber(x) != IpToNumber(y);
      FormatInjective(x, y);
    }
  }

  /** The parsed bounds of one range; None when either is not an address
      (IPAddress.Parse throws). */
  function Bounds(range: (string, string)): Option<(IPv4, IPv4)>
  {
    match (ParseAddress(range.0), ParseAddress(range.1))
    case (Some(s), Some(e)) => Some((s, e))
    case _ => None
  }

  /** The probe list of a whole configuration, range after range; None when a range
      bound fails to parse. */
  function Probes(ranges: seq<(string, string)>): (r: Option<seq<string>>)
  {
    if |ranges| == 0 then Some([])
    else
      match (Probes(ranges[..|ranges| - 1]), Bounds(ranges[|ranges| - 1]))
      case (Some(before), Some(b)) => Some(before + RangeProbes(IpToNumber(b.0), IpToNumber(b.1)))
      case _ => None
  }

  /** The probed addresses whose ping was answered, in launch order. */
  function Answered(probes: seq<string>, alive: string -> bool): (r: seq<string>)
    ensures forall k | 0 <= k < |r| :: r[k] in probes && alive(r[k])
    ensures forall x | x in probes && alive(x) :: x in r
  {
    if |probes| == 0 then []
    else if alive(probes[0]) then [probes[0]] + Answered(probes[1..], alive)
    else Answered(probes[1..], alive)
  }

  /** A range that fails to parse fails the whole scan. */
  lemma {:induction false} ProbesFailFrom(ranges: seq<(string, string)>, t: nat)
    requires t <= |ranges| && Probes(ranges[..t]).None?
    ensures Probes(ranges).None?
    decreases |ranges| - t
  {
    if t < |ranges| {
      assert ranges[..t + 1][..t] == ranges[..t];
      ProbesFailFrom(ranges, t + 1);
    } else {
      assert ranges[..t] == ranges;
    }
  }

  /** ScanNetworkAsync: nested loops launch one probe per address of every range, then the
      answered addresses are collected in launch order.  None: a bound failed to parse. */
  method ScanNetwork(ranges: seq<(string, string)>, alive: string -> bool) returns (r: Option<seq<string>>)
    ensures r.None? <==> Probes(ranges).None?
    ensures r.Some? ==> r.value == Answered(Probes(ranges).value, alive)
  {
    var probes: seq<string> := [];
    var t := 0;
    while t < |ranges|
      invariant 0 <= t <= |ranges|
      invariant Probes(ranges[..t]) == Some(probes)
    {
      assert ranges[..t + 1][..t] == ranges[..t];
      var start := ParseAddress(ranges[t].0);
      var end := ParseAddress(ranges[t].1);
      if start.None? || end.None? {
        ProbesFailFrom(ranges, t + 1);
        return None;
      }
      probes := LaunchRange(probes, IpToNumber(start.value), IpToNumber(end.value));
      t := t + 1;
    }
    assert ranges[..t] == ranges;
    var active := KeepAnswered(probes, alive);
    r := Some(active);
  }

  /** The inner loop: one probe per address numbered lo..hi, appended in order. */
  method LaunchRange(probes: seq<string>, lo: int, hi: int) returns (launched: seq<string>)
    ensures launched == probes + RangeProbes(lo, hi)
  {
    launched := probes;
    var i := lo;
    while i <= hi
      invariant lo <= i <= if lo <= hi then hi + 1 else lo
      invariant launched == probes + RangeProbes(lo, i - 1)
    {
      launched := launched + [FormatAddress(NumberToIp(i))];
      i := i + 1;
    }
  }

  /** The loop over the ping results that keeps the non-null ones. */
  method KeepAnswered(probes: seq<string>, alive: string -> bool) returns (active: seq<string>)
    ensures active == Answered(probes, alive)
  {
    active := [];
    var k := 0;
    while k < |probes|
      invariant 0 <= k <= |probes|
      invariant active + Answered(probes[k..], alive) == Answered(probes, alive)
    {
      assert probes[k..][1..] == probes[k + 1..];
      if alive(probes[k]) {
        active := active + [probes[k]];
      }
      k := k + 1;
    }
    assert probes[k..] == [];
  }

  /** The range with these bounds holds the address. */
  predicate Holds(range: (string, string), ip: IPv4)
  {
    Bounds(range).Some? && IpToNumber(Bounds(range).value.0) <= IpToNumber(ip) <= IpToNumber(Bounds(range).value.1)
  }

  /** Some range of the configuration holds the address. */
  predicate InSomeRange(ranges: seq<(string, string)>, ip: IPv4)
  {
    exists t | 0 <= t < |ranges| :: Holds(ranges[t], ip)
  }

  lemma InSomeRangeSnoc(ranges: seq<(string, string)>, ip: IPv4)
    requires |ranges| > 0
    ensures InSomeRange(ranges, ip) <==> InSomeRange(ranges[..|ranges| - 1], ip) || Holds(ranges[|ranges| - 1], ip)
  {
    var init := ranges[..|ranges| - 1];
    if InSomeRange(init, ip) {
      var t :| 0 <= t < |init| && Holds(init[t], ip);
      assert ranges[t] == init[t];
    }
    if InSomeRange(ranges, ip) {
      var t :| 0 <= t < |ranges| && Holds(ranges[t], ip);
      if t < |init| {
        assert ranges[t] == init[t];
      }
    }
  }

  /** An address is probed exactly when some range holds it. */
  lemma {:induction false} ProbedExactly(ranges: seq<(string, string)>, ip: IPv4)
    requires Probes(ranges).Some?
    ensures FormatAddress(ip) in Probes(ranges).value <==> InSomeRange(ranges, ip)
  {
    if |ranges| > 0 {
      var init := ranges[..|ranges| - 1];
      var b := Bounds(ranges[|ranges| - 1]).value;
      assert Probes(ranges).value == Probes(init).value + RangeProbes(IpToNumber(b.0), IpToNumber(b.1));
      ProbedExactly(init, ip);
      RangeProbesExact(IpToNumber(b.0), IpToNumber(b.1), ip);
      InSomeRangeSnoc(ranges, ip);
    }
  }
}
