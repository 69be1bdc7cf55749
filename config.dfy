/**
  The node's configuration: validated setters for each setting and the load
  that assigns them, in file order, from the parsed config.json.  The JSON
  document itself is not modelled; each property arrives as an Option, None
  standing for a missing property, a value of the wrong JSON kind or a null
  string.
*/
module Config {
  import opened Wrappers
  import opened Text
  import opened Numerals
  import opened Scanner

  const MinPort: int := 1024
  const MaxPort: int := 65535
  const LoadFailure: string := "ER Failed to load app configuration"

  /** The value of one dotted segment as int.TryParse reads it, when it parses. */
  function SegmentValue(segment: string): Option<int>
  {
    ParseInt32(segment)
  }

  predicate OctetText(segment: string)
  {
    SegmentValue(segment).Some? && 0 <= SegmentValue(segment).value <= 255
  }

  /** ValidateIp: not blank, four '.'-separated segments, each an integer in 0..255. */
  predicate ValidateIp(ip: string)
  {
    && !IsBlank(ip)
    && |Split(ip, '.')| == 4
    && forall k | 0 <= k < 4 :: OctetText(Split(ip, '.')[k])
  }

  /** ValidatePort: 1024..65535. */
  predicate ValidatePort(port: int)
  {
    MinPort <= port <= MaxPort
  }

  /** The four segment values of a valid address, as an address. */
  function Octets(ip: string): IPv4
    requires ValidateIp(ip)
  {
    var s := Split(ip, '.');
    IPv4(SegmentValue(s[0]).value, SegmentValue(s[1]).value, SegmentValue(s[2]).value, SegmentValue(s[3]).value)
  }

  /** ConvertIpToNumber: (s0 << 24) | (s1 << 16) | (s2 << 8) | s3.  With every segment in
      0..255 the shifted values occupy disjoint bits, so the OR is their sum. */
  function ConvertIpToNumber(ip: string): (n: int)
    requires ValidateIp(ip)
    ensures 0 <= n < AddressCount
  {
    var s := Split(ip, '.');
    SegmentValue(s[0]).value * 0x100_0000 + SegmentValue(s[1]).value * 0x1_0000
      + SegmentValue(s[2]).value * 0x100 + SegmentValue(s[3]).value
  }

  /** Segment-wise lexicographic order of two addresses. */
  predicate LexLess(x: IPv4, y: IPv4)
  {
    || x.b0 < y.b0
    || (x.b0 == y.b0 && x.b1 < y.b1)
    || (x.b0 == y.b0 && x.b1 == y.b1 && x.b2 < y.b2)
    || (x.b0 == y.b0 && x.b1 == y.b1 && x.b2 == y.b2 && x.b3 < y.b3)
  }

  /** The configuration's conversion agrees with the scanner's big-endian reading. */
  lemma ConvertIsBigEndian(ip: string)
    requires ValidateIp(ip)
    ensures ConvertIpToNumber(ip) == IpToNumber(Octets(ip))
  {
  }

  /** Two valid addresses have the same number exactly when their segment values agree. */
  lemma ConvertInjective(p: string, q: string)
    requires ValidateIp(p) && ValidateIp(q)
    ensures ConvertIpToNumber(p) == ConvertIpToNumber(q) <==> Octets(p) == Octets(q)
  {
    IpToNumberInjective(Octets(p), Octets(q));
  }

  /** Numeric order of addresses is the lexicographic order of their segments. */
  lemma ConvertOrdered(p: string, q: string)
    requires ValidateIp(p) && ValidateIp(q)
    ensures ConvertIpToNumber(p) < ConvertIpToNumber(q) <==> LexLess(Octets(p), Octets(q))
  {
    var x := Octets(p);
    var y := Octets(q);
    assert x.b1 * 0x1_0000 + x.b2 * 0x100 + x.b3 < 0x100_0000;
    assert y.b1 * 0x1_0000 + y.b2 * 0x100 + y.b3 < 0x100_0000;
    assert x.b2 * 0x100 + x.b3 < 0x1_0000;
    assert y.b2 * 0x100 + y.b3 < 0x1_0000;
  }

  /** A byte written in decimal is a segment that validates, with its own value. */
  lemma OctetTextOf(b: int)
    requires 0 <= b <= 255
    ensures OctetText(NatToString(b)) && SegmentValue(NatToString(b)) == Some(b)
  {
    ParseInt32RoundTrip(b);
  }

  /** Every address the node itself prints passes validation, with the same number. */
  lemma FormattedAddressValid(x: IPv4)
    ensures ValidateIp(FormatAddress(x))
    ensures Octets(FormatAddress(x)) == x
  {
    FormattedAddressSplit(x);
    OctetTextOf(x.b0);
    OctetTextOf(x.b1);
    OctetTextOf(x.b2);
    OctetTextOf(x.b3);
    var parts := Split(FormatAddress(x), '.');
    assert forall k | 0 <= k < 4 :: OctetText(parts[k]);
  }

  /** The raw settings as read from config.json. */
  datatype RawConfig = RawConfig(
    ipAddress: Option<string>,
    appPort: Option<int>,
    timeoutTime: Option<int>,
    maxConnectionCount: Option<int>,
    scanIpStart: Option<string>,
    scanIpEnd: Option<string>,
    scanPortStart: Option<int>,
    scanPortEnd: Option<int>)

  /** A file every setter accepts, in the order LoadConfig assigns them. */
  predicate Acceptable(raw: RawConfig)
  {
    && raw.ipAddress.Some? && ValidateIp(raw.ipAddress.value)
    && raw.appPort.Some? && ValidatePort(raw.appPort.value)
    && raw.timeoutTime.Some? && raw.timeoutTime.value > 0
    && raw.maxConnectionCount.Some? && raw.maxConnectionCount.value > 0
    && raw.scanIpStart.Some? && ValidateIp(raw.scanIpStart.value)
    && raw.scanIpEnd.Some? && ValidateIp(raw.scanIpEnd.value)
    && ConvertIpToNumber(raw.scanIpEnd.value) >= ConvertIpToNumber(raw.scanIpStart.value)
    && raw.scanPortStart.Some? && ValidatePort(raw.scanPortStart.value)
    && raw.scanPortEnd.Some? && ValidatePort(raw.scanPortEnd.value)
    && raw.scanPortEnd.value >= raw.scanPortStart.value
  }

  class ConfigLoader {
    var ipAddress: string
    var appPort: int
    var timeoutTime: int
    var maxConnectionCount: int
    var scanIpStart: string
    var scanIpEnd: string
    var scanPortStart: int
    var scanPortEnd: int

    /** Every setting as its setter admits it, and each scan range in order. */
    ghost predicate Valid()
      reads this
    {
      && ValidateIp(ipAddress) && ValidatePort(appPort)
      && timeoutTime > 0 && maxConnectionCount > 0
      && ValidateIp(scanIpStart) && ValidateIp(scanIpEnd)
      && ConvertIpToNumber(scanIpStart) <= ConvertIpToNumber(scanIpEnd)
      && ValidatePort(scanPortStart) && ValidatePort(scanPortEnd)
      && scanPortStart <= scanPortEnd
    }

    /** The fields before loading: numbers 0, strings unset (null, modelled as ""). */
    constructor ()
      ensures ipAddress == "" && scanIpStart == "" && scanIpEnd == ""
      ensures appPort == 0 && timeoutTime == 0 && maxConnectionCount == 0
      ensures scanPortStart == 0 && scanPortEnd == 0
    {
      ipAddress := "";
      appPort := 0;
      timeoutTime := 0;
      maxConnectionCount := 0;
      scanIpStart := "";
      scanIpEnd := "";
      scanPortStart := 0;
      scanPortEnd := 0;
    }

    method SetIpAddress(value: string) returns (ok: bool)
      modifies this
      ensures ok <==> ValidateIp(value)
      ensures ipAddress == (if ok then value else old(ipAddress))
      ensures appPort == old(appPort) && timeoutTime == old(timeoutTime) && maxConnectionCount == old(maxConnectionCount)
      ensures scanIpStart == old(scanIpStart) && scanIpEnd == old(scanIpEnd)
      ensures scanPortStart == old(scanPortStart) && scanPortEnd == old(scanPortEnd)
    {
      ok := ValidateIp(value);
      if ok {
        ipAddress := value;
      }
    }

    method SetAppPort(value: int) returns (ok: bool)
      modifies this
      ensures ok <==> ValidatePort(value)
      ensures appPort == (if ok then value else old(appPort))
      ensures ipAddress == old(ipAddress) && timeoutTime == old(timeoutTime) && maxConnectionCount == old(maxConnectionCount)
      ensures scanIpStart == old(scanIpStart) && scanIpEnd == old(scanIpEnd)
      ensures scanPortStart == old(scanPortStart) && scanPortEnd == old(scanPortEnd)
    {
      ok := ValidatePort(value);
      if ok {
        appPort := value;
      }
    }

    /** TimeoutTime rejects values that are not above 0. */
    method SetTimeoutTime(value: int) returns (ok: bool)
      modifies this
      ensures ok <==> value > 0
      ensures timeoutTime == (if ok then value else old(timeoutTime))
      ensures ipAddress == old(ipAddress) && appPort == old(appPort) && maxConnectionCount == old(maxConnectionCount)
      ensures scanIpStart == old(scanIpStart) && scanIpEnd == old(scanIpEnd)
      ensures scanPortStart == old(scanPortStart) && scanPortEnd == old(scanPortEnd)
    {
      ok := value > 0;
      if ok {
        timeoutTime := value;
      }
    }

    /** MaxConnectionCount rejects values that are not above 0. */
    method SetMaxConnectionCount(value: int) returns (ok: bool)
      modifies this
      ensures ok <==> value > 0
      ensures maxConnectionCount == (if ok then value else old(maxConnectionCount))
      ensures ipAddress == old(ipAddress) && appPort == old(appPort) && timeoutTime == old(timeoutTime)
      ensures scanIpStart == old(scanIpStart) && scanIpEnd == old(scanIpEnd)
      ensures scanPortStart == old(scanPortStart) && scanPortEnd == old(scanPortEnd)
    {
      ok := value > 0;
      if ok {
        maxConnectionCount := value;
      }
    }

    method SetScanIpStart(value: string) returns (ok: bool)
      modifies this
      ensures ok <==> ValidateIp(value)
      ensures scanIpStart == (if ok then value else old(scanIpStart))
      ensures ipAddress == old(ipAddress) && appPort == old(appPort) && timeoutTime == old(timeoutTime)
      ensures maxConnectionCount == old(maxConnectionCount) && scanIpEnd == old(scanIpEnd)
      ensures scanPortStart == old(scanPortStart) && scanPortEnd == old(scanPortEnd)
    {
      ok := ValidateIp(value);
      if ok {
        scanIpStart := value;
      }
    }

    /** ScanIpEnd must be a valid address numbered no lower than ScanIpStart; an unset or
        invalid start makes the comparison itself fail. */
    method SetScanIpEnd(value: string) returns (ok: bool)
      modifies this
      ensures ok <==> ValidateIp(value) && ValidateIp(scanIpStart) && ConvertIpToNumber(value) >= ConvertIpToNumber(scanIpStart)
      ensures scanIpEnd == (if ok then value else old(scanIpEnd))
      ensures ipAddress == old(ipAddress) && appPort == old(appPort) && timeoutTime == old(timeoutTime)
      ensures maxConnectionCount == old(maxConnectionCount) && scanIpStart == old(scanIpStart)
      ensures scanPortStart == old(scanPortStart) && scanPortEnd == old(scanPortEnd)
    {
      if !ValidateIp(value) || !ValidateIp(scanIpStart) {
        return false;
      }
      if ConvertIpToNumber(value) < ConvertIpToNumber(scanIpStart) {
        return false;
      }
      scanIpEnd := value;
      ok := true;
    }

    method SetScanPortStart(value: int) returns (ok: bool)
      modifies this
      ensures ok <==> ValidatePort(value)
      ensures scanPortStart == (if ok then value else old(scanPortStart))
      ensures ipAddress == old(ipAddress) && appPort == old(appPort) && timeoutTime == old(timeoutTime)
      ensures maxConnectionCount == old(maxConnectionCount)
      ensures scanIpStart == old(scanIpStart) && scanIpEnd == old(scanIpEnd) && scanPortEnd == old(scanPortEnd)
    {
      ok := ValidatePort(value);
      if ok {
        scanPortStart := value;
      }
    }

    /** ScanPortEnd must be a valid port no lower than ScanPortStart. */
    method SetScanPortEnd(value: int) returns (ok: bool)
      modifies this
      ensures ok <==> ValidatePort(value) && value >= scanPortStart
      ensures scanPortEnd == (if ok then value else old(scanPortEnd))
      ensures ipAddress == old(ipAddress) && appPort == old(appPort) && timeoutTime == old(timeoutTime)
      ensures maxConnectionCount == old(maxConnectionCount)
      ensures scanIpStart == old(scanIpStart) && scanIpEnd == old(scanIpEnd) && scanPortStart == old(scanPortStart)
    {
      if !ValidatePort(value) || value < scanPortStart {
        return false;
      }
      scanPortEnd := value;
      ok := true;
    }

    /** LoadConfig: assigns the settings through their setters in file order (each start
        before its end); the first refusal, or a missing file or property, ends the load
        with the one message the caller sees. */
    method LoadConfig(raw: Option<RawConfig>) returns (error: Option<string>)
      modifies this
      ensures error.None? <==> raw.Some? && Acceptable(raw.value)
      ensures error.Some? ==> error.value == LoadFailure
      ensures error.None? ==> Valid()
      ensures error.None? ==>
        && ipAddress == raw.value.ipAddress.value && appPort == raw.value.appPort.value
        && timeoutTime == raw.value.timeoutTime.value && maxConnectionCount == raw.value.maxConnectionCount.value
        && scanIpStart == raw.value.scanIpStart.value && scanIpEnd == raw.value.scanIpEnd.value
        && scanPortStart == raw.value.scanPortStart.value && scanPortEnd == raw.value.scanPortEnd.value
    {
      if raw.None? {
        return Some(LoadFailure);
      }
      var r := raw.value;
      var ok: bool;
      if r.ipAddress.None? { return Some(LoadFailure); }
      ok := SetIpAddress(r.ipAddress.value);
      if !ok { return Some(LoadFailure); }
      if r.appPort.None? { return Some(LoadFailure); }
      ok := SetAppPort(r.appPort.value);
      if !ok { return Some(LoadFailure); }
      if r.timeoutTime.None? { return Some(LoadFailure); }
      ok := SetTimeoutTime(r.timeoutTime.value);
      if !ok { return Some(LoadFailure); }
      if r.maxConnectionCount.None? { return Some(LoadFailure); }
      ok := SetMaxConnectionCount(r.maxConnectionCount.value);
      if !ok { return Some(LoadFailure); }
      if r.scanIpStart.None? { return Some(LoadFailure); }
      ok := SetScanIpStart(r.scanIpStart.value);
      if !ok { return Some(LoadFailure); }
      if r.scanIpEnd.None? { return Some(LoadFailure); }
      ok := SetScanIpEnd(r.scanIpEnd.value);
      if !ok { return Some(LoadFailure); }
      if r.scanPortStart.None? { return Some(LoadFailure); }
      ok := SetScanPortStart(r.scanPortStart.value);
      if !ok { return Some(LoadFailure); }
      if r.scanPortEnd.None? { return Some(LoadFailure); }
      ok := SetScanPortEnd(r.scanPortEnd.value);
      if !ok { return Some(LoadFailure); }
      error := None;
    }
  }
}
