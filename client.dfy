/** The one-shot NTP exchange of fetchtime: building the query, checking the
    response against it, and the ordered build / connect / send / receive /
    verify / extract cycle.

    The operating system is not modelled.  What it answers (the reads of
    /dev/urandom, the socket `connect_to_ntp_host` yields, the counts `send`
    and `recv` return and the bytes `recv` leaves in the response buffer) is
    given as a `World`, and each operation returns, beside its result, the
    trace of the system calls it made, in order. */
module NtpClient {
  import opened NtpWire
  import opened NtpTime
  import opened Optional

  // ---------------------------------------------------------------------------
  // The status byte

  /** The status byte of a header with the given leap indicator, version
      and mode: `mode | (version << 3) | (leap << 6)`. */
  function PackStatus(leap: bv8, version: bv8, mode: bv8): (status: byte)
    requires leap < 4 && version < 8 && mode < 8
    ensures Mode(status) == mode && Version(status) == version && Leap(status) == leap
  {
    var bits := mode | (version << 3) | (leap << 6);
    BitsRoundTrip(bits);
    bits as byte
  }

  /** A bit pattern read as a number and back is the same pattern. */
  lemma BitsRoundTrip(bits: bv8)
    ensures 0 <= bits as int < 0x100 && (bits as int) as bv8 == bits
  {
  }

  /** The three fields of a status byte. */
  function Mode(status: byte): bv8 { (status as bv8) & 7 }
  function Version(status: byte): bv8 { ((status as bv8) >> 3) & 7 }
  function Leap(status: byte): bv8 { (status as bv8) >> 6 }

  /** The status fetchtime writes into its query:
      `MODE_CLIENT | (NTP_VERSION << 3)`, leap indicator 0. */
  function QueryStatus(): (status: byte)
    ensures status == PackStatus(0, NTP_VERSION as bv8, MODE_CLIENT as bv8)
  {
    ((MODE_CLIENT as bv8) | ((NTP_VERSION as bv8) << 3)) as byte
  }

  /** The bits a server reply must carry: `MODE_SERVER | (NTP_VERSION << 3)`. */
  function StatusMask(): bv8
  {
    (MODE_SERVER as bv8) | ((NTP_VERSION as bv8) << 3)
  }

  /** `(status & status_mask) == status_mask`: every bit of the mask is set.
      As the mask has one bit in the mode field and one in the version field,
      this admits every mode from 4 (server) to 7 and every version from 4 to
      7, whatever the leap indicator. */
  predicate FlagsSet(status: byte)
    ensures FlagsSet(status) <==> Mode(status) >= MODE_SERVER as bv8 && Version(status) >= NTP_VERSION as bv8
  {
    (status as bv8) & StatusMask() == StatusMask()
  }

  /** Setting more bits never turns good flags bad. */
  lemma ExtraBitsKeepFlags(status: byte, extra: bv8)
    requires FlagsSet(status)
    ensures FlagsSet(((status as bv8) | extra) as byte)
  {
    BitsRoundTrip((status as bv8) | extra);
  }

  // ---------------------------------------------------------------------------
  // Response verification

  /** The outcomes of `verify_ntp_response`; the two rejections are the two
      distinct diagnostics it prints. */
  datatype Verdict = Accepted | BadFlags | Mismatch

  /** `verify_ntp_response`: the flags first, then the origin timestamp must
      echo the query's transmit timestamp exactly. */
  function VerifyResponse(query: NtpMsg, response: NtpMsg): (v: Verdict)
    ensures v == BadFlags <==>
      !(Mode(response.status) >= MODE_SERVER as bv8 && Version(response.status) >= NTP_VERSION as bv8)
    ensures v == Accepted <==>
      Mode(response.status) >= MODE_SERVER as bv8 && Version(response.status) >= NTP_VERSION as bv8 &&
      response.orgtime == query.xmttime
  {
    if !FlagsSet(response.status) then BadFlags
    else if response.orgtime.seconds != query.xmttime.seconds
         || response.orgtime.fraction != query.xmttime.fraction then Mismatch
    else Accepted
  }

  /** The leap indicator has no say in the verdict: only the low six bits
      of the status, mode and version, count. */
  lemma {:induction false} VerdictIgnoresLeap(query: NtpMsg, response: NtpMsg, status: byte)
    requires (status as bv8) & 0x3F == (response.status as bv8) & 0x3F
    ensures VerifyResponse(query, response.(status := status)) == VerifyResponse(query, response)
  {
  }

  /** A response whose status lacks a mask bit is turned down for its flags,
      whatever it echoes; a status echoing the client's own mode is one. */
  lemma {:induction false} ClientModeEchoRejected(query: NtpMsg, response: NtpMsg, leap: bv8)
    requires leap < 4
    requires response.status == PackStatus(leap, NTP_VERSION as bv8, MODE_CLIENT as bv8)
    ensures VerifyResponse(query, response) == BadFlags
  {
  }

  /** What a genuine server sends back for `query`: server mode, version 4,
      any leap indicator, the query's transmit timestamp echoed as origin
      timestamp, its own clock as transmit timestamp; the other fields are
      whatever `base` holds. */
  function ServerReply(query: NtpMsg, base: NtpMsg, leap: bv8, clock: Timestamp): NtpMsg
    requires leap < 4
  {
    base.(status := PackStatus(leap, NTP_VERSION as bv8, MODE_SERVER as bv8),
          orgtime := query.xmttime, xmttime := clock)
  }

  /** A genuine reply, once it has crossed the wire, is accepted and read as
      the server's clock. */
  lemma {:induction false} ServerReplyAccepted(query: NtpMsg, base: NtpMsg, leap: bv8, clock: Timestamp)
    requires leap < 4
    ensures var response := Deserialize(Serialize(ServerReply(query, base, leap, clock)));
      VerifyResponse(query, response) == Accepted &&
      Extract(response) == TimeVal(clock.seconds - JAN_1970, Micros(clock.fraction))
  {
    DeserializeSerialize(ServerReply(query, base, leap, clock));
  }

  // ---------------------------------------------------------------------------
  // The random source

  /** What one `get_secure_random_uint32` call sees: /dev/urandom would not
      open, or `read` returned `count` and left the four bytes spelling
      `value` in network byte order. */
  datatype UrandomRead = OpenFailed | ReadReturned(count: int, value: u32)

  /** `get_secure_random_uint32`: a value only for a full four-byte read. */
  function SecureRandomU32(r: UrandomRead): (v: Option<u32>)
    ensures v.Some? <==> r.ReadReturned? && r.count == 4
    ensures v.Some? ==> v.value == r.value
  {
    match r
    case OpenFailed => None
    case ReadReturned(count, value) => if count != 4 then None else Some(value)
  }

  // ---------------------------------------------------------------------------
  // The world the exchange runs against, and the calls it makes

  datatype World = World(
    firstDraw: UrandomRead,   // the first read of /dev/urandom
    secondDraw: UrandomRead,  // the second read of /dev/urandom
    socket: int,              // what connect_to_ntp_host returns; -1 is failure
    sent: int,                // what send returns
    received: int,            // what recv returns
    inbox: Packet)            // the response buffer after recv

  /** The system calls the core makes, in the order it makes them. */
  datatype Event =
    | ReadUrandom
    | Connect(host: string)
    | Send(socket: int, bytes: Packet)
    | Recv(socket: int)
    | Close(socket: int)

  /** Why `fetch_ntp_time` returned false: one cause per diagnostic. */
  datatype Failure =
    | RandomSourceFailed
    | ConnectFailed
    | SendFailed
    | SendIncomplete
    | RecvFailed
    | RecvIncomplete
    | Rejected(verdict: Verdict)

  /** The boolean result of `fetch_ntp_time` with the `struct timeval` it
      fills in on success only. */
  datatype Fetch = Fetched(time: TimeVal) | Failed(cause: Failure)

  predicate DrawsSucceed(w: World)
  {
    SecureRandomU32(w.firstDraw).Some? && SecureRandomU32(w.secondDraw).Some?
  }

  /** The correlation token: the two draws, in order. */
  function Token(w: World): Timestamp
    requires DrawsSucceed(w)
  {
    Timestamp(w.firstDraw.value, w.secondDraw.value)
  }

  /** The query fetchtime sends for a token. */
  function ClientQuery(token: Timestamp): (q: NtpMsg)
    ensures Mode(q.status) == MODE_CLIENT as bv8 && Version(q.status) == NTP_VERSION as bv8 && Leap(q.status) == 0
  {
    ZeroMsg().(status := QueryStatus(), xmttime := token)
  }

  /** On the wire the query is the status byte, 39 zero bytes and the token
      in network byte order. */
  lemma {:induction false} ClientQueryBytes(token: Timestamp)
    ensures var p := Serialize(ClientQuery(token));
      p[0] == 35 && p[1..40] == seq(39, i => 0) && p[40..48] == TimestampBytes(token)
  {
    var p := Serialize(ClientQuery(token));
    var z := Serialize(ZeroMsg());
    assert p[1..40] == z[1..40] by {
      assert p[1..4] == z[1..4];
      assert p[4..12] == z[4..12];
      assert p[12..16] == z[12..16];
      assert p[16..24] == z[16..24];
      assert p[24..32] == z[24..32];
      assert p[32..40] == z[32..40];
      assert p[1..40] == p[1..4] + p[4..12] + p[12..16] + p[16..24] + p[24..32] + p[32..40];
      assert z[1..40] == z[1..4] + z[4..12] + z[12..16] + z[16..24] + z[24..32] + z[32..40];
    }
  }

  /** `init_ntp_query`: zero the message, set the status, then fill the
      transmit timestamp from two draws, giving up at the first failed one.
      On failure the partly written message is returned as the caller's
      buffer would hold it: the status, the first draw if it succeeded, and
      zeros everywhere else. */
  method InitNtpQuery(w: World) returns (ok: bool, query: NtpMsg, trace: seq<Event>)
    ensures ok <==> DrawsSucceed(w)
    ensures ok ==> query == ClientQuery(Token(w))
    ensures query.status == QueryStatus()
    ensures SecureRandomU32(w.firstDraw).Some? ==> query.xmttime.seconds == w.firstDraw.value
    ensures !ok ==>
      query == ClientQuery(Timestamp(if SecureRandomU32(w.firstDraw).Some? then w.firstDraw.value else 0, 0))
    ensures trace == if SecureRandomU32(w.firstDraw).None? then [ReadUrandom]
                     else [ReadUrandom, ReadUrandom]
  {
    query := ZeroMsg();
    query := query.(status := QueryStatus());

    trace := [ReadUrandom];
    var random := SecureRandomU32(w.firstDraw);
    if random.None? {
      return false, query, trace;
    }
    query := query.(xmttime := query.xmttime.(seconds := random.value));

    trace := trace + [ReadUrandom];
    random := SecureRandomU32(w.secondDraw);
    if random.None? {
      return false, query, trace;
    }
    query := query.(xmttime := query.xmttime.(fraction := random.value));

    ok := true;
  }

  /** `send_ntp_query`: the whole header must go out in one `send`. */
  method SendNtpQuery(socket: int, query: NtpMsg, w: World) returns (err: Option<Failure>, event: Event)
    ensures event == Send(socket, Serialize(query))
    ensures err.None? <==> w.sent == MSG_SIZE
    ensures w.sent == -1 ==> err == Some(SendFailed)
    ensures w.sent != -1 && w.sent != MSG_SIZE ==> err == Some(SendIncomplete)
  {
    event := Send(socket, Serialize(query));
    var ret := w.sent;
    if ret == -1 {
      return Some(SendFailed), event;
    }
    if ret != MSG_SIZE {
      return Some(SendIncomplete), event;
    }
    err := None;
  }

  /** `receive_ntp_response`: the response counts only if `recv` filled the
      whole header; it is then read from the buffer. */
  method ReceiveNtpResponse(socket: int, w: World) returns (err: Option<Failure>, response: NtpMsg, event: Event)
    ensures event == Recv(socket)
    ensures err.None? <==> w.received == MSG_SIZE
    ensures err.None? ==> response == Deserialize(w.inbox)
    ensures w.received == -1 ==> err == Some(RecvFailed)
    ensures w.received != -1 && w.received != MSG_SIZE ==> err == Some(RecvIncomplete)
  {
    event := Recv(socket);
    response := Deserialize(w.inbox);
    var ret := w.received;
    if ret == -1 {
      return Some(RecvFailed), response, event;
    }
    if ret != MSG_SIZE {
      return Some(RecvIncomplete), response, event;
    }
    err := None;
  }

  /** The failure of a send count, if any. */
  function SendFault(sent: int): Option<Failure>
  {
    if sent == -1 then Some(SendFailed)
    else if sent != MSG_SIZE then Some(SendIncomplete)
    else None
  }

  /** The failure of a receive count, if any. */
  function RecvFault(received: int): Option<Failure>
  {
    if received == -1 then Some(RecvFailed)
    else if received != MSG_SIZE then Some(RecvIncomplete)
    else None
  }

  /** `retrieve_time_from_ntp_server`: send, receive, verify, extract, each
      step only after the previous one succeeded.  A receive is attempted
      only after a complete send, the buffer is read only after a complete
      receive, and a time comes out only for an accepted response. */
  method RetrieveTime(socket: int, query: NtpMsg, w: World) returns (result: Fetch, trace: seq<Event>)
    ensures result.Fetched? <==>
      w.sent == MSG_SIZE && w.received == MSG_SIZE &&
      VerifyResponse(query, Deserialize(w.inbox)) == Accepted
    ensures result.Fetched? ==> result.time == Extract(Deserialize(w.inbox))
    ensures w.sent != MSG_SIZE ==> result == Failed(SendFault(w.sent).value)
    ensures w.sent == MSG_SIZE && w.received != MSG_SIZE ==> result == Failed(RecvFault(w.received).value)
    ensures w.sent == MSG_SIZE && w.received == MSG_SIZE && result.Failed? ==>
      result.cause == Rejected(VerifyResponse(query, Deserialize(w.inbox)))
    ensures trace == [Send(socket, Serialize(query))] + (if w.sent == MSG_SIZE then [Recv(socket)] else [])
  {
    var err, event := SendNtpQuery(socket, query, w);
    trace := [event];
    if err.Some? {
      return Failed(err.value), trace;
    }

    var response;
    err, response, event := ReceiveNtpResponse(socket, w);
    trace := trace + [event];
    if err.Some? {
      return Failed(err.value), trace;
    }

    var verdict := VerifyResponse(query, response);
    if verdict != Accepted {
      return Failed(Rejected(verdict)), trace;
    }

    result := Fetched(Extract(response));
  }

  /** `fetch_ntp_time`: the query is built before any connection, the
      exchange runs only on a connected socket, the socket is closed after
      it, and the result is the exchange's. */
  method FetchNtpTime(host: string, w: World) returns (result: Fetch, trace: seq<Event>)
    ensures !DrawsSucceed(w) ==>
      result == Failed(RandomSourceFailed) && forall e <- trace :: e == ReadUrandom
    ensures DrawsSucceed(w) && w.socket == -1 ==>
      result == Failed(ConnectFailed) && trace == [ReadUrandom, ReadUrandom, Connect(host)]
    ensures DrawsSucceed(w) && w.socket != -1 ==>
      trace == [ReadUrandom, ReadUrandom, Connect(host), Send(w.socket, Serialize(ClientQuery(Token(w))))]
               + (if w.sent == MSG_SIZE then [Recv(w.socket)] else []) + [Close(w.socket)]
    ensures result.Fetched? <==>
      DrawsSucceed(w) && w.socket != -1 && w.sent == MSG_SIZE && w.received == MSG_SIZE &&
      VerifyResponse(ClientQuery(Token(w)), Deserialize(w.inbox)) == Accepted
    ensures result.Fetched? ==> result.time == Extract(Deserialize(w.inbox))
    ensures DrawsSucceed(w) && w.socket != -1 && result.Failed? ==>
      result.cause == (if w.sent != MSG_SIZE then SendFault(w.sent).value
                       else if w.received != MSG_SIZE then RecvFault(w.received).value
                       else Rejected(VerifyResponse(ClientQuery(Token(w)), Deserialize(w.inbox))))
  {
    var ok, query;
    ok, query, trace := InitNtpQuery(w);
    if !ok {
      return Failed(RandomSourceFailed), trace;
    }

    trace := trace + [Connect(host)];
    var socket := w.socket;
    if socket == -1 {
      return Failed(ConnectFailed), trace;
    }

    var exchange;
    result, exchange := RetrieveTime(socket, query, w);
    trace := trace + exchange + [Close(socket)];
  }

  /** The scenario of a server that answers the query properly: its reply
      (leap indicator 0, clock 3913056000 s and half a second) is accepted
      and read as 1704067200 s and 500000 us, i.e. 2024-01-01 00:00:00.5 UTC. */
  lemma {:induction false} GenuineServerScenario(w: World, base: NtpMsg)
    requires DrawsSucceed(w)
    requires w.inbox == Serialize(ServerReply(ClientQuery(Token(w)), base, 0, Timestamp(3913056000, 0x8000_0000)))
    ensures VerifyResponse(ClientQuery(Token(w)), Deserialize(w.inbox)) == Accepted
    ensures Extract(Deserialize(w.inbox)) == TimeVal(1704067200, 500000)
  {
    ServerReplyAccepted(ClientQuery(Token(w)), base, 0, Timestamp(3913056000, 0x8000_0000));
    MicrosLandmarks();
  }

  /** Without the token no reply gets through: a response whose origin
      timestamp differs from the query's transmit timestamp in any bit is
      never accepted, however well its flags are formed. */
  lemma {:induction false} ForgedReplyRejected(w: World, forged: NtpMsg)
    requires DrawsSucceed(w)
    requires forged.orgtime != Token(w)
    ensures VerifyResponse(ClientQuery(Token(w)), Deserialize(Serialize(forged))) != Accepted
  {
    DeserializeSerialize(forged);
  }
}
