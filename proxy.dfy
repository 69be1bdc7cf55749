/**
  The proxy to a remote bank node: finding the port a node listens on (a "BC"
  handshake on every candidate port, the first correct answer wins) and
  forwarding one request line to it.  The sockets are not modelled: what the
  remote side answers is a parameter, a Network, and a missing line (null from
  ReadLine) is read as the empty line.
*/
module Proxy {
  import opened Wrappers
  import opened Text
  import opened Numerals
  import opened Ranges
  import opened Scanner

  /** What one request/response exchange with a node gives: the line it answered, a
      SocketException with its message, or any other exception (which the caller sees). */
  datatype Exchange = Replied(line: string) | SocketError(message: string) | Broken

  /** The remote side.  handshake(ip, port) is the line answered to "BC" within the timeout,
      None when the connection or the read times out or fails; exchange is what a forwarded
      request gets. */
  datatype Network = Network(
    handshake: (IPv4, int) -> Option<string>,
    exchange: (IPv4, int, string) -> Exchange)

  /** What ForwardRequest gives its caller: a line, or an exception it lets through. */
  datatype Delivery = Line(text: string) | Thrown

  /** The handshake answer is "BC" followed by the address that was asked, as its first two
      space-separated pieces (a missing second piece is a caught IndexOutOfRange). */
  predicate CorrectAnswer(response: string, ip: IPv4)
  {
    var parts := Split(response, ' ');
    |parts| >= 2 && parts[0] == "BC" && parts[1] == FormatAddress(ip)
  }

  /** The response starts with "BC <ip>", and whatever follows starts with a space. */
  predicate IdentifiesAs(response: string, ip: IPv4)
  {
    var code := "BC " + FormatAddress(ip);
    |response| >= |code| && response[..|code|] == code
      && (|response| == |code| || response[|code|] == ' ')
  }

  /** The handshake check accepts exactly the responses that identify the asked address. */
  lemma CorrectAnswerMeans(response: string, ip: IPv4)
    ensures CorrectAnswer(response, ip) <==> IdentifiesAs(response, ip)
  {
    var addr := FormatAddress(ip);
    var code := "BC " + addr;
    if CorrectAnswer(response, ip) {
      var parts := Split(response, ' ');
      JoinSplit(response, ' ');
      assert response == "BC" + [' '] + Join([' '], parts[1..]);
      if |parts| == 2 {
        assert response == code;
      } else {
        assert Join([' '], parts[1..]) == addr + [' '] + Join([' '], parts[2..]);
        assert response == code + [' '] + Join([' '], parts[2..]);
      }
    }
    if IdentifiesAs(response, ip) {
      var tail := response[|code|..];
      assert response == code + tail;
      SplitWithoutSeparator("BC", ' ');
      if tail == [] {
        assert response == "BC" + [' '] + addr;
        SplitAfterPiece("BC", ' ', addr);
        SplitWithoutSeparator(addr, ' ');
      } else {
        assert response == "BC" + [' '] + (addr + [' '] + tail[1..]);
        SplitAfterPiece("BC", ' ', addr + [' '] + tail[1..]);
        SplitAfterPiece(addr, ' ', tail[1..]);
      }
    }
  }

  /** A node that answers with its own bank code passes the handshake. */
  lemma BankCodeAccepted(ip: IPv4)
    ensures CorrectAnswer("BC " + FormatAddress(ip), ip)
  {
    CorrectAnswerMeans("BC " + FormatAddress(ip), ip);
  }

  /** CheckPortAsync: the port when the handshake there is answered correctly, else 0. */
  function CheckPort(ip: IPv4, port: int, net: Network): (r: int)
    ensures r == 0 || r == port
    ensures r != 0 ==> net.handshake(ip, port).Some? && IdentifiesAs(net.handshake(ip, port).value, ip)
  {
    match net.handshake(ip, port)
    case Some(response) =>
      CorrectAnswerMeans(response, ip);
      if CorrectAnswer(response, ip) then port else 0
    case None => 0
  }

  /** A node that answers its bank code on a port is found on that port. */
  lemma CheckPortFindsNode(ip: IPv4, port: int, net: Network)
    requires net.handshake(ip, port) == Some("BC " + FormatAddress(ip))
    ensures CheckPort(ip, port, net) == port
  {
    BankCodeAccepted(ip);
  }

  /** The ports of the configured ranges, range by range, each walked upward. */
  function PortsOf(ranges: seq<(int, int)>): seq<int>
  {
    if |ranges| == 0 then []
    else PortsOf(ranges[..|ranges| - 1]) + Interval(ranges[|ranges| - 1].0, ranges[|ranges| - 1].1)
  }

  /** Some configured port range holds p. */
  predicate InSomePortRange(ranges: seq<(int, int)>, p: int)
  {
    exists k | 0 <= k < |ranges| :: ranges[k].0 <= p <= ranges[k].1
  }

  /** A range of a non-empty list is one of the earlier ranges or the last one. */
  lemma PortRangeSnoc(ranges: seq<(int, int)>, p: int)
    requires |ranges| > 0
    ensures InSomePortRange(ranges, p) <==>
      InSomePortRange(ranges[..|ranges| - 1], p) || ranges[|ranges| - 1].0 <= p <= ranges[|ranges| - 1].1
  {
    var init := ranges[..|ranges| - 1];
    if InSomePortRange(ranges, p) {
      var k :| 0 <= k < |ranges| && ranges[k].0 <= p <= ranges[k].1;
      if k < |init| {
        assert init[k] == ranges[k];
      }
    }
    if InSomePortRange(init, p) {
      var k :| 0 <= k < |init| && init[k].0 <= p <= init[k].1;
      assert ranges[k] == init[k];
    }
  }

  /** A port is a candidate exactly when some range holds it. */
  lemma {:induction false} PortsOfMembers(ranges: seq<(int, int)>, p: int)
    ensures p in PortsOf(ranges) <==> InSomePortRange(ranges, p)
  {
    if |ranges| > 0 {
      var init := ranges[..|ranges| - 1];
      var last := ranges[|ranges| - 1];
      PortsOfMembers(init, p);
      IntervalMembers(last.0, last.1, p);
      PortRangeSnoc(ranges, p);
    }
  }

  /** The nested loops that list the ports to scan. */
  method ListPorts(ranges: seq<(int, int)>) returns (ports: seq<int>)
    ensures ports == PortsOf(ranges)
  {
    ports := [];
    var t := 0;
    while t < |ranges|
      invariant 0 <= t <= |ranges|
      invariant ports == PortsOf(ranges[..t])
    {
      var (start, end) := ranges[t];
      var before := ports;
      var port := start;
      while port <= end
        invariant start <= port <= if start <= end then end + 1 else start
        invariant ports == before + Interval(start, port - 1)
      {
        IntervalStep(start, port);
        ports := ports + [port];
        port := port + 1;
      }
      assert ranges[..t + 1][..t] == ranges[..t];
      t := t + 1;
    }
    assert ranges[..t] == ranges;
  }

  /** FindPort: a check is started on every candidate port; the checks finish in an order
      the model does not fix, and the first one that reports a port decides.  The result is
      0 exactly when no candidate port answers the handshake correctly. */
  method FindPort(ip: IPv4, ranges: seq<(int, int)>, net: Network) returns (port: int)
    ensures port == 0 <==> forall p | p in PortsOf(ranges) :: CheckPort(ip, p, net) == 0
    ensures port != 0 ==> port in PortsOf(ranges) && CheckPort(ip, port, net) == port
  {
    var ports := ListPorts(ranges);
    var tasks := ports;
    while |tasks| > 0
      invariant forall p | p in tasks :: p in ports
      invariant forall p | p in ports :: p in tasks || CheckPort(ip, p, net) == 0
      decreases |tasks|
    {
      var k :| 0 <= k < |tasks|;
      var done := tasks[k];
      var rest := tasks[..k] + tasks[k + 1..];
      assert forall p | p in tasks && p != done :: p in rest by {
        forall p | p in tasks && p != done ensures p in rest {
          var j :| 0 <= j < |tasks| && tasks[j] == p;
          if j < k {
            assert rest[j] == p;
          } else {
            assert rest[j - 1] == p;
          }
        }
      }
      assert forall p | p in rest :: p in tasks;
      tasks := rest;
      var found := CheckPort(ip, done, net);
      if found != 0 {
        return found;
      }
    }
    port := 0;
  }

  /** ForwardRequest of a client that holds port: no port means no attempt; a
      SocketException becomes an error line; any other exception escapes. */
  function Forward(ip: IPv4, port: int, request: string, net: Network): (d: Delivery)
    ensures port == 0 ==> d == Line("ER " + "Unable to connect to " + FormatAddress(ip) + ". No open port found")
    ensures port != 0 && net.exchange(ip, port, request).Replied? ==> d == Line(net.exchange(ip, port, request).line)
    ensures d.Thrown? <==> port != 0 && net.exchange(ip, port, request).Broken?
  {
    if port == 0 then
      Line("ER " + "Unable to connect to " + FormatAddress(ip) + ". No open port found")
    else
      match net.exchange(ip, port, request)
      case Replied(line) => Line(line)
      case SocketError(message) =>
        Line("ER " + "Unable to connect to " + FormatAddress(ip) + ":" + IntToString(port) + " - " + message)
      case Broken => Thrown
  }

  /** Every failure to reach the node is reported as an error line starting with "ER". */
  lemma ForwardFailureIsError(ip: IPv4, port: int, request: string, net: Network)
    requires port == 0 || net.exchange(ip, port, request).SocketError?
    ensures Forward(ip, port, request, net).Line?
    ensures StartsWith(Forward(ip, port, request, net).text, "ER ")
  {
  }

  class ProxyClient {
    const address: IPv4
    /** The node's port, 0 while none is known. */
    var port: int

    /** A client that has not looked for a port. */
    constructor (address: IPv4)
      ensures this.address == address && port == 0
    {
      this.address := address;
      port := 0;
    }

    /** CreateClient: a client holding the port FindPort reports. */
    static method CreateClient(address: IPv4, ranges: seq<(int, int)>, net: Network) returns (c: ProxyClient)
      ensures fresh(c) && c.address == address
      ensures c.port == 0 <==> forall p | p in PortsOf(ranges) :: CheckPort(address, p, net) == 0
      ensures c.port != 0 ==> c.port in PortsOf(ranges) && CheckPort(address, c.port, net) == c.port
    {
      c := new ProxyClient(address);
      var found := FindPort(address, ranges, net);
      c.port := found;
    }

    method ForwardRequest(request: string, net: Network) returns (d: Delivery)
      ensures d == Forward(address, port, request, net)
    {
      if port == 0 {
        return Line("ER " + "Unable to connect to " + FormatAddress(address) + ". No open port found");
      }
      match net.exchange(address, port, request)
      case Replied(line) =>
        d := Line(line);
      case SocketError(message) =>
        d := Line("ER " + "Unable to connect to " + FormatAddress(address) + ":" + IntToString(port) + " - " + message);
      case Broken =>
        d := Thrown;
    }
  }
}
