/** The SSDP side of the renderer (discovery, UPnP Device Architecture 1.0 section 1):
    the NOTIFY announcements it multicasts when it starts and stops, the reply it
    unicasts to an M-SEARCH, and the classification of what it receives. The socket
    is an `outbox` of the datagrams handed to `send_to`; whether each send succeeds is
    a parameter, so that the early exit of a failed send can be stated. */
module Ssdp {
  import opened Common
  import Decimal
  import opened CrlfLines

  datatype Ipv4Addr = Ipv4Addr(a: U8, b: U8, c: U8, d: U8)

  datatype SocketAddrV4 = SocketAddrV4(ip: Ipv4Addr, port: U16)

  /** `Display` for `Ipv4Addr`: dotted decimal. */
  function Ipv4Display(ip: Ipv4Addr): string
  {
    Decimal.NatToDecimal(ip.a) + "." + Decimal.NatToDecimal(ip.b) + "." + Decimal.NatToDecimal(ip.c) + "."
      + Decimal.NatToDecimal(ip.d)
  }

  /** `Display` for `SocketAddrV4`: address, colon, port. */
  function SocketAddrDisplay(s: SocketAddrV4): string
  {
    Ipv4Display(s.ip) + ":" + Decimal.NatToDecimal(s.port)
  }

  /** The multicast group and port of SSDP. */
  const SSDP_MULTICAST_ADDR: SocketAddrV4 := SocketAddrV4(Ipv4Addr(239, 255, 255, 250), 1900)

  /** `SSDP_MULTICAST_ADDR` as `Display` writes it (see `MulticastAddressText`). */
  const SSDP_MULTICAST_HOST: string := "239.255.255.250:1900"

  const SSDP_SERVER_NAME: string := "CustomSSDP/1.0"

  /** A datagram handed to the socket: where it goes and what it says. */
  datatype Datagram = Datagram(dest: SocketAddrV4, text: string)

  /** The errors an operation reports: a send that failed, or an unknown message. */
  datatype IoError = SendFailed | InvalidData(message: string)

  /** `io::Result<()>`. */
  datatype Outcome = Done | Failed(error: IoError)

  // ---------------------------------------------------------------------------
  // The message texts.

  /** A header line: name, colon, space, value. */
  function Header(name: string, value: string): string
  {
    name + ": " + value
  }

  /** The lines of a NOTIFY with the given notification type, sub type and unique
      service name; `address` is the server's own address. */
  function NotifyLines(address: SocketAddrV4, nt: string, nts: string, usn: string): seq<string>
  {
    [ "NOTIFY * HTTP/1.1",
      Header("HOST", SSDP_MULTICAST_HOST),
      Header("NT", nt),
      Header("NTS", nts),
      Header("USN", usn),
      Header("LOCATION", "http://" + SocketAddrDisplay(address) + "/description.xml"),
      Header("CACHE-CONTROL", "max-age=1800"),
      Header("SERVER", SSDP_SERVER_NAME) ]
  }

  function NotifyMessage(address: SocketAddrV4, nt: string, nts: string, usn: string): string
  {
    Frame(NotifyLines(address, nt, nts, usn))
  }

  /** The value of the OPT header of a search reply: the UPnP 1.0 namespace. */
  const UPNP_OPT: string := "\"http://schemas.upnp.org/upnp/1/0/\"; ns=01"

  /** The lines of the reply to an M-SEARCH; `date` is the current time as the
      `Date` header writes it. */
  function SearchReplyLines(address: SocketAddrV4, uuid: string, httpPort: U16, date: string): seq<string>
  {
    [ "HTTP/1.1 200 OK",
      Header("ST", "upnp:rootdevice"),
      Header("USN", "uuid:" + uuid + "::upnp:rootdevice"),
      Header("Location", "http://" + Ipv4Display(address.ip) + ":" + Decimal.NatToDecimal(httpPort) + "/DeviceSpec"),
      Header("OPT", UPNP_OPT),
      Header("Cache-Control", "max-age=900"),
      Header("Server", SSDP_SERVER_NAME),
      "EXT:",
      Header("Date", date) ]
  }

  function SearchReply(address: SocketAddrV4, uuid: string, httpPort: U16, date: string): string
  {
    Frame(SearchReplyLines(address, uuid, httpPort, date))
  }

  /** The services announced after the device itself, in order. */
  const Services: seq<string> := ["RenderingControl", "AVTransport", "ConnectionManager"]

  function ServiceType(service: string): string
  {
    "urn:schemas-upnp-org:service:" + service + ":1"
  }

  /** What an announcement is about: a notification type and a unique service name. */
  datatype NotifyTarget = NotifyTarget(nt: string, usn: string)

  /** The notification type and unique service name of the k-th announcement: the
      root device, the device itself, then each service. */
  function Target(uuid: string, k: nat): NotifyTarget
    requires k < 5
  {
    if k == 0 then NotifyTarget("upnp:rootdevice", "uuid:" + uuid + "::upnp:rootdevice")
    else if k == 1 then NotifyTarget("uuid:" + uuid, "uuid:" + uuid)
    else NotifyTarget(ServiceType(Services[k - 2]), "uuid:" + uuid + "::" + ServiceType(Services[k - 2]))
  }

  /** The k-th announcement with sub type `nts`. */
  function Announcement(address: SocketAddrV4, uuid: string, nts: string, k: nat): Datagram
    requires k < 5
  {
    Datagram(SSDP_MULTICAST_ADDR, NotifyMessage(address, Target(uuid, k).nt, nts, Target(uuid, k).usn))
  }

  /** Every announcement `notify_all` makes, in the order it makes them. */
  function Announcements(address: SocketAddrV4, uuid: string, nts: string): seq<Datagram>
  {
    [ Announcement(address, uuid, nts, 0), Announcement(address, uuid, nts, 1), Announcement(address, uuid, nts, 2),
      Announcement(address, uuid, nts, 3), Announcement(address, uuid, nts, 4) ]
  }

  /** The number of sends that succeed before the first that fails, among n. */
  function FirstFailure(sendOk: nat -> bool, n: nat): (k: nat)
    ensures k <= n
    ensures forall j | 0 <= j < k :: sendOk(j)
    ensures k < n ==> !sendOk(k)
  {
    if n == 0 then 0
    else if FirstFailure(sendOk, n - 1) < n - 1 then FirstFailure(sendOk, n - 1)
    else if sendOk(n - 1) then n
    else n - 1
  }

  /** The first failure is the one before which every send succeeded. */
  lemma FirstFailureIs(sendOk: nat -> bool, n: nat, k: nat)
    requires k <= n
    requires forall j | 0 <= j < k :: sendOk(j)
    requires k < n ==> !sendOk(k)
    ensures FirstFailure(sendOk, n) == k
  {
  }

  lemma PrefixStep<T>(s: seq<T>, i: nat)
    requires i < |s|
    ensures s[..i + 1] == s[..i] + [s[i]]
  {
  }

  /** What `answer` makes of a received message, by its prefix. */
  datatype MessageKind = Search | Notification | Unknown

  function Classify(message: string): (kind: MessageKind)
    ensures kind == Search <==> "M-SEARCH" <= message
    ensures kind == Notification <==> "NOTIFY" <= message
  {
    if "M-SEARCH" <= message then assert message[0] == 'M'; Search
    else if "NOTIFY" <= message then Notification
    else Unknown
  }

  /** The outcome of one `recv_from`: a datagram from an IPv4 sender (its bytes as
      text), one from an IPv6 sender, a socket with nothing to read, or an error. */
  datatype Received = FromV4(from: SocketAddrV4, message: string) | FromV6(text: string) | WouldBlock | RecvError

  // ---------------------------------------------------------------------------
  // The server.

  class SSDPServer {
    const address: SocketAddrV4
    const uuid: string
    const httpPort: U16
    /** The datagrams handed to the socket, oldest first. */
    var outbox: seq<Datagram>

    /** A server on the given address; the socket setup is not modelled. */
    constructor (address: SocketAddrV4, uuid: string, httpPort: U16)
      ensures this.address == address && this.uuid == uuid && this.httpPort == httpPort
      ensures outbox == []
    {
      this.address := address;
      this.uuid := uuid;
      this.httpPort := httpPort;
      outbox := [];
    }

    /** `send_to`: a delivered datagram is appended, a failed one is not. */
    method SendTo(dest: SocketAddrV4, text: string, delivered: bool) returns (r: Outcome)
      modifies this
      ensures r == (if delivered then Done else Failed(SendFailed))
      ensures outbox == old(outbox) + (if delivered then [Datagram(dest, text)] else [])
    {
      if delivered {
        outbox := outbox + [Datagram(dest, text)];
        r := Done;
      } else {
        r := Failed(SendFailed);
      }
    }

    /** `notify`: one NOTIFY to the multicast group. */
    method Notify(nt: string, nts: string, usn: string, delivered: bool) returns (r: Outcome)
      modifies this
      ensures r == (if delivered then Done else Failed(SendFailed))
      ensures outbox == old(outbox) + (if delivered then [Datagram(SSDP_MULTICAST_ADDR, NotifyMessage(address, nt, nts, usn))] else [])
    {
      var message := NotifyMessage(address, nt, nts, usn);
      r := SendTo(SSDP_MULTICAST_ADDR, message, delivered);
    }

    /** `notify_service`: the NOTIFY for one service of the device. */
    method NotifyService(service: string, nts: string, delivered: bool) returns (r: Outcome)
      modifies this
      ensures r == (if delivered then Done else Failed(SendFailed))
      ensures outbox == old(outbox) + (if delivered then
        [Datagram(SSDP_MULTICAST_ADDR, NotifyMessage(address, ServiceType(service), nts, "uuid:" + uuid + "::" + ServiceType(service)))]
        else [])
    {
      r := Notify(ServiceType(service), nts, "uuid:" + uuid + "::" + ServiceType(service), delivered);
    }

    /** `notify_all`: the five announcements in order, the k-th send succeeding when
        `sendOk(k)` holds; the first failure ends it and is reported. */
    method NotifyAll(nts: string, sendOk: nat -> bool) returns (r: Outcome)
      modifies this
      ensures outbox == old(outbox) + Announcements(address, uuid, nts)[..FirstFailure(sendOk, 5)]
      ensures r == (if FirstFailure(sendOk, 5) == 5 then Done else Failed(SendFailed))
    {
      ghost var sent := Announcements(address, uuid, nts);
      var uuidWithPrefix := "uuid:" + uuid;
      r := Notify("upnp:rootdevice", nts, uuidWithPrefix + "::upnp:rootdevice", sendOk(0));
      if r.Failed? {
        FirstFailureIs(sendOk, 5, 0);
        return;
      }
      r := Notify(uuidWithPrefix, nts, uuidWithPrefix, sendOk(1));
      if r.Failed? {
        FirstFailureIs(sendOk, 5, 1);
        return;
      }
      for i := 0 to 3
        invariant outbox == old(outbox) + sent[..2 + i]
        invariant forall k | 0 <= k < 2 + i :: sendOk(k)
      {
        r := NotifyService(Services[i], nts, sendOk(2 + i));
        if r.Failed? {
          FirstFailureIs(sendOk, 5, 2 + i);
          return;
        }
        PrefixStep(sent, 2 + i);
      }
      FirstFailureIs(sendOk, 5, 5);
      r := Done;
    }

    /** `alive`: the announcements with sub type `ssdp:alive`. */
    method Alive(sendOk: nat -> bool) returns (r: Outcome)
      modifies this
      ensures outbox == old(outbox) + Announcements(address, uuid, "ssdp:alive")[..FirstFailure(sendOk, 5)]
      ensures r == (if FirstFailure(sendOk, 5) == 5 then Done else Failed(SendFailed))
    {
      r := NotifyAll("ssdp:alive", sendOk);
    }

    /** `byebye`: the announcements with sub type `ssdp:byebye`. */
    method Byebye(sendOk: nat -> bool) returns (r: Outcome)
      modifies this
      ensures outbox == old(outbox) + Announcements(address, uuid, "ssdp:byebye")[..FirstFailure(sendOk, 5)]
      ensures r == (if FirstFailure(sendOk, 5) == 5 then Done else Failed(SendFailed))
    {
      r := NotifyAll("ssdp:byebye", sendOk);
    }

    /** `stop`: says goodbye; a failure is only logged. */
    method Stop(sendOk: nat -> bool)
      modifies this
      ensures outbox == old(outbox) + Announcements(address, uuid, "ssdp:byebye")[..FirstFailure(sendOk, 5)]
    {
      var _ := Byebye(sendOk);
    }

    /** `answer_search`: the reply goes back to the sender. The request's text is not
        looked at. */
    method AnswerSearch(from: SocketAddrV4, message: string, delivered: bool, date: string) returns (r: Outcome)
      modifies this
      ensures r == (if delivered then Done else Failed(SendFailed))
      ensures outbox == old(outbox) + (if delivered then [Datagram(from, SearchReply(address, uuid, httpPort, date))] else [])
    {
      var response := SearchReply(address, uuid, httpPort, date);
      r := SendTo(from, response, delivered);
    }

    /** `answer`: a search is answered, a notification ignored, anything else is an
        error naming the message. */
    method Answer(from: SocketAddrV4, message: string, delivered: bool, date: string) returns (r: Outcome)
      modifies this
      ensures Classify(message) == Search ==> r == (if delivered then Done else Failed(SendFailed))
      ensures Classify(message) == Notification ==> r == Done
      ensures Classify(message) == Unknown ==> r == Failed(InvalidData("Received unknown SSDP message: " + message))
      ensures outbox == old(outbox) + Replies(from, message, delivered, date)
    {
      if "M-SEARCH" <= message {
        r := AnswerSearch(from, message, delivered, date);
      } else if "NOTIFY" <= message {
        r := Done;
      } else {
        r := Failed(InvalidData("Received unknown SSDP message: " + message));
      }
    }

    /** What answering a message sends: one reply to a delivered search, else nothing. */
    function Replies(from: SocketAddrV4, message: string, delivered: bool, date: string): (r: seq<Datagram>)
      ensures |r| <= 1
      ensures |r| == 1 <==> Classify(message) == Search && delivered
      ensures |r| == 1 ==> r[0].dest == from
    {
      if Classify(message) == Search && delivered then [Datagram(from, SearchReply(address, uuid, httpPort, date))] else []
    }

    /** One turn of `run`'s receive loop. A datagram from an IPv6 sender is skipped, a
        socket with nothing to read or a failed receive sends nothing, and an error in
        answering is only logged: the loop goes on in every case. */
    method RunStep(received: Received, delivered: bool, date: string)
      modifies this
      ensures outbox == old(outbox) + (if received.FromV4? then Replies(received.from, received.message, delivered, date) else [])
    {
      match received
      case FromV4(from, message) =>
        var _ := Answer(from, message, delivered, date);
      case FromV6(_) =>
      case WouldBlock =>
      case RecvError =>
    }
  }

  // ---------------------------------------------------------------------------
  // Properties of the messages.

  lemma DecimalNoCr(n: nat)
    ensures NoCr(Decimal.NatToDecimal(n))
  {
    var s := Decimal.NatToDecimal(n);
    assert forall i | 0 <= i < |s| :: Decimal.IsDigit(s[i]);
  }

  lemma AddressNoCr(s: SocketAddrV4)
    ensures NoCr(Ipv4Display(s.ip)) && NoCr(SocketAddrDisplay(s))
  {
    DecimalNoCr(s.ip.a);
    DecimalNoCr(s.ip.b);
    DecimalNoCr(s.ip.c);
    DecimalNoCr(s.ip.d);
    DecimalNoCr(s.port);
  }

  // How `Display` writes the numbers of the multicast address, one number per lemma
  // so that each evaluation is proved in a context of its own.
  lemma Display239() ensures Decimal.NatToDecimal(239) == "239" {}
  lemma Display255() ensures Decimal.NatToDecimal(255) == "255" {}
  lemma Display250() ensures Decimal.NatToDecimal(250) == "250" {}
  lemma Display1900() ensures Decimal.NatToDecimal(1900) == "1900" {}

  /** The multicast destination is written 239.255.255.250:1900, the HOST of every
      NOTIFY. */
  lemma MulticastAddressText()
    ensures SocketAddrDisplay(SSDP_MULTICAST_ADDR) == SSDP_MULTICAST_HOST
  {
    Display239();
    Display255();
    Display250();
    Display1900();
    assert Ipv4Display(SSDP_MULTICAST_ADDR.ip) == "239.255.255.250";
  }

  /** Prefixing a line keeps it a line. */
  lemma PrefixedLine(prefix: string, value: string)
    requires prefix != "" && NoCr(prefix) && NoCr(value)
    ensures prefix + value != "" && NoCr(prefix + value)
  {
  }

  lemma HeaderLine(name: string, value: string)
    requires NoCr(name) && NoCr(value)
    ensures Header(name, value) != "" && NoCr(Header(name, value))
  {
  }

  /** The lines of a NOTIFY that are the same for every server. */
  lemma NotifyConstantLines()
    ensures NoCr("NOTIFY * HTTP/1.1")
    ensures Header("HOST", SSDP_MULTICAST_HOST) != "" && NoCr(Header("HOST", SSDP_MULTICAST_HOST))
    ensures Header("CACHE-CONTROL", "max-age=1800") != "" && NoCr(Header("CACHE-CONTROL", "max-age=1800"))
    ensures Header("SERVER", SSDP_SERVER_NAME) != "" && NoCr(Header("SERVER", SSDP_SERVER_NAME))
  {
    HeaderLine("HOST", SSDP_MULTICAST_HOST);
    HeaderLine("CACHE-CONTROL", "max-age=1800");
    HeaderLine("SERVER", SSDP_SERVER_NAME);
  }

  lemma NotifyLinesWellFormed(address: SocketAddrV4, nt: string, nts: string, usn: string)
    requires NoCr(nt) && NoCr(nts) && NoCr(usn)
    ensures WellFormed(NotifyLines(address, nt, nts, usn))
  {
    NotifyConstantLines();
    HeaderLine("NT", nt);
    HeaderLine("NTS", nts);
    HeaderLine("USN", usn);
    AddressNoCr(address);
    HeaderLine("LOCATION", "http://" + SocketAddrDisplay(address) + "/description.xml");
  }

  /** A NOTIFY is read back as the lines it was built from: the request line, then
      HOST, NT, NTS, USN, LOCATION, CACHE-CONTROL and SERVER, in that order. */
  lemma NotifyHeaders(address: SocketAddrV4, nt: string, nts: string, usn: string)
    requires NoCr(nt) && NoCr(nts) && NoCr(usn)
    ensures ParseLines(NotifyMessage(address, nt, nts, usn)) == Some(NotifyLines(address, nt, nts, usn))
  {
    NotifyLinesWellFormed(address, nt, nts, usn);
    ParseFrame(NotifyLines(address, nt, nts, usn));
  }

  /** The lines of the reply that are the same for every server. */
  lemma ReplyConstantLines()
    ensures NoCr("HTTP/1.1 200 OK") && NoCr("EXT:")
    ensures Header("ST", "upnp:rootdevice") != "" && NoCr(Header("ST", "upnp:rootdevice"))
    ensures Header("Cache-Control", "max-age=900") != "" && NoCr(Header("Cache-Control", "max-age=900"))
    ensures Header("Server", SSDP_SERVER_NAME) != "" && NoCr(Header("Server", SSDP_SERVER_NAME))
  {
    HeaderLine("ST", "upnp:rootdevice");
    HeaderLine("Cache-Control", "max-age=900");
    HeaderLine("Server", SSDP_SERVER_NAME);
  }

  lemma OptLine()
    ensures Header("OPT", UPNP_OPT) != "" && NoCr(Header("OPT", UPNP_OPT))
  {
    assert NoCr(UPNP_OPT);
    HeaderLine("OPT", UPNP_OPT);
  }

  lemma SearchReplyLinesWellFormed(address: SocketAddrV4, uuid: string, httpPort: U16, date: string)
    requires NoCr(uuid) && NoCr(date)
    ensures WellFormed(SearchReplyLines(address, uuid, httpPort, date))
  {
    var ls := SearchReplyLines(address, uuid, httpPort, date);
    ReplyConstantLines();
    OptLine();
    AddressNoCr(address);
    DecimalNoCr(httpPort);
    HeaderLine("USN", "uuid:" + uuid + "::upnp:rootdevice");
    HeaderLine("Location", "http://" + Ipv4Display(address.ip) + ":" + Decimal.NatToDecimal(httpPort) + "/DeviceSpec");
    HeaderLine("Date", date);
  }

  /** The reply to a search is read back as the lines it was built from, whatever the
      search said: status line, ST, USN, Location, OPT, Cache-Control, Server, EXT
      and Date. */
  lemma SearchReplyHeaders(address: SocketAddrV4, uuid: string, httpPort: U16, date: string)
    requires NoCr(uuid) && NoCr(date)
    ensures ParseLines(SearchReply(address, uuid, httpPort, date)) == Some(SearchReplyLines(address, uuid, httpPort, date))
  {
    SearchReplyLinesWellFormed(address, uuid, httpPort, date);
    ParseFrame(SearchReplyLines(address, uuid, httpPort, date));
  }

  /** The five announcements: the root device, the device under its own uuid (its
      NT and USN are the same), then the three services, each USN the uuid followed by
      `::` and the NT. */
  lemma AnnouncedTargets(uuid: string)
    ensures Target(uuid, 0).nt == "upnp:rootdevice"
    ensures Target(uuid, 1).nt == Target(uuid, 1).usn == "uuid:" + uuid
    ensures forall k | 0 <= k < 5 && k != 1 :: Target(uuid, k).usn == "uuid:" + uuid + "::" + Target(uuid, k).nt
    ensures forall i | 0 <= i < 3 :: Target(uuid, 2 + i).nt == ServiceType(Services[i])
  {
  }

  lemma RenderingControlType()
    ensures ServiceType(Services[0]) == "urn:schemas-upnp-org:service:RenderingControl:1"
  {
  }

  lemma AVTransportType()
    ensures ServiceType(Services[1]) == "urn:schemas-upnp-org:service:AVTransport:1"
  {
  }

  lemma ConnectionManagerType()
    ensures ServiceType(Services[2]) == "urn:schemas-upnp-org:service:ConnectionManager:1"
  {
  }

  lemma ServiceTypeNoCr(service: string)
    requires NoCr(service)
    ensures NoCr(ServiceType(service))
  {
  }

  lemma ServicesNoCr(i: nat)
    requires i < 3
    ensures NoCr(Services[i])
  {
  }

  lemma TargetNoCr(uuid: string, k: nat)
    requires NoCr(uuid) && k < 5
    ensures NoCr(Target(uuid, k).nt) && NoCr(Target(uuid, k).usn)
  {
    var p := "uuid:" + uuid;
    if k == 0 {
      PrefixedLine(p, "::upnp:rootdevice");
    } else if k >= 2 {
      ServicesNoCr(k - 2);
      ServiceTypeNoCr(Services[k - 2]);
      PrefixedLine(p + "::", ServiceType(Services[k - 2]));
    }
  }

  /** Each announcement goes to the multicast group and reads back as the NOTIFY for
      its target. */
  lemma AnnouncementLines(address: SocketAddrV4, uuid: string, nts: string, k: nat)
    requires NoCr(uuid) && NoCr(nts) && k < 5
    ensures |Announcements(address, uuid, nts)| == 5
    ensures Announcements(address, uuid, nts)[k].dest == SSDP_MULTICAST_ADDR
    ensures ParseLines(Announcements(address, uuid, nts)[k].text)
         == Some(NotifyLines(address, Target(uuid, k).nt, nts, Target(uuid, k).usn))
  {
    TargetNoCr(uuid, k);
    NotifyHeaders(address, Target(uuid, k).nt, nts, Target(uuid, k).usn);
  }

  /** Two NOTIFYs for the same target agree on every line but the NTS line. */
  lemma OnlyNtsDiffers(address: SocketAddrV4, nt: string, usn: string, x: string, y: string)
    ensures |NotifyLines(address, nt, x, usn)| == |NotifyLines(address, nt, y, usn)| == 8
    ensures forall i | 0 <= i < 8 && i != 3 :: NotifyLines(address, nt, x, usn)[i] == NotifyLines(address, nt, y, usn)[i]
    ensures NotifyLines(address, nt, x, usn)[3] == Header("NTS", x)
  {
  }

  /** Going alive and saying goodbye send the same five messages to the same place,
      but for the NTS line. */
  lemma AliveByebyeDiffer(address: SocketAddrV4, uuid: string, k: nat)
    requires NoCr(uuid) && k < 5
    ensures Announcements(address, uuid, "ssdp:alive")[k].dest == Announcements(address, uuid, "ssdp:byebye")[k].dest
    ensures var alive := ParseLines(Announcements(address, uuid, "ssdp:alive")[k].text);
            var byebye := ParseLines(Announcements(address, uuid, "ssdp:byebye")[k].text);
      && alive.Some? && byebye.Some? && |alive.value| == |byebye.value| == 8
      && (forall i | 0 <= i < 8 && i != 3 :: alive.value[i] == byebye.value[i])
      && alive.value[3] == Header("NTS", "ssdp:alive") && byebye.value[3] == Header("NTS", "ssdp:byebye")
  {
    var t := Target(uuid, k);
    AnnouncementLines(address, uuid, "ssdp:alive", k);
    AnnouncementLines(address, uuid, "ssdp:byebye", k);
    OnlyNtsDiffers(address, t.nt, t.usn, "ssdp:alive", "ssdp:byebye");
    OnlyNtsDiffers(address, t.nt, t.usn, "ssdp:byebye", "ssdp:alive");
  }

  /** The server hears its own announcements on the group and ignores them; a search
      reply from another device is not understood. */
  lemma OwnMessagesClassified(address: SocketAddrV4, uuid: string, httpPort: U16, date: string, k: nat, nts: string)
    requires k < 5
    ensures Classify(Announcements(address, uuid, nts)[k].text) == Notification
    ensures Classify(SearchReply(address, uuid, httpPort, date)) == Unknown
  {
    var t := Target(uuid, k);
    var m := NotifyLines(address, t.nt, nts, t.usn);
    FirstLinePrefix(m);
    assert "NOTIFY" <= m[0];
    var s := SearchReplyLines(address, uuid, httpPort, date);
    FirstLinePrefix(s);
    assert Frame(s)[0] == 'H';
  }
}
