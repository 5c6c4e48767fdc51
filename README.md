# fetchtime, modelled in Dafny

fetchtime is a one-shot NTP client. It builds a query whose transmit
timestamp is two 32-bit values from /dev/urandom, not the host's clock. That
value is the correlation token. It sends the 48-byte header over a connected
UDP socket and receives one 48-byte reply. It accepts the reply only if the
status byte carries the server-mode and version bits and the origin timestamp
echoes the token exactly. It then converts the reply's transmit timestamp
(section 6 of RFC 5905: 32-bit seconds since 1900, 32-bit binary fraction)
into a `struct timeval`. Its command line is `fetchtime [-h] [-p] [-s] [-u] HOST`.

The project has five modules:

- `NtpWire` (`wire.dfy`): the header of section 7.3 of RFC 5905 as a
  datatype. It has big-endian encodings and `Serialize`/`Deserialize`, proved
  inverse both ways. Each multi-byte field holds the value its bytes spell in
  network byte order, which is what `ntohl` yields. Comparing two fields
  bitwise, as the C code does, is then comparing these values.
- `NtpTime` (`time.dfy`): `extract_time_from_ntp_response`. It includes
  bounds, monotonicity, distance from the exact 2^32 fixed-point value, and an
  inverse (`Encode`) that it round-trips with.
- `NtpClient` (`client.dfy`): the status byte, `verify_ntp_response`,
  `get_secure_random_uint32`, `init_ntp_query`, `send_ntp_query`,
  `receive_ntp_response`, `retrieve_time_from_ntp_server` and
  `fetch_ntp_time`. The operating system's answers form a `World` value: the
  two urandom reads, the socket, the `send` and `recv` counts, and the receive
  buffer. Each method returns the trace of system calls it made. So "no
  connection after a random-source failure" and "no receive after a short
  send" are statements about the trace.
- `CmdArgs` (`cmdargs.dfy`): `parse_cmdargs`. The loop is proved against a
  left-to-right scan function, `ParseOutcome`. Lemmas then say what that
  outcome means.
- `Optional` (`option.dfy`): the option type.

Constants, since `ntp.h` is not part of this model: `MODE_CLIENT` = 3,
`MODE_SERVER` = 4, `NTP_VERSION` = 4, `JAN_1970` = 2208988800, and
`sizeof(struct ntp_msg)` = 48. These are the values of RFC 5905. The origin
timestamp is at offset 24 and the transmit timestamp at offset 40.

Behaviours of the code worth knowing, which the model keeps:

- The flag check is `(status & mask) == mask` with mask 0x24. It is a
  bits-set test, not an equality on the masked mode and version fields. So it
  accepts modes 4 to 7 and versions 4 to 7, with any leap indicator
  (`FlagsSet`).
- The microseconds are `1.0e6 * frac / UINT_MAX`, truncated. The divisor is
  2^32 - 1, so the result lies in [0, 1000000]. It reaches 1000000 exactly at
  fraction 0xFFFFFFFF. It can exceed the 2^32 fixed-point value
  `floor(frac * 10^6 / 2^32)` by one, and never falls below it.
- The model computes the microseconds as the integer
  `floor(frac * 1000000 / 4294967295)`. The product is below 2^53, so the
  double holds it exactly. A non-integral quotient lies at least 1/(2^32 - 1)
  from every integer. That is more than half a unit in the last place of any
  double up to 10^6. So correctly rounded division followed by truncation
  gives the same integer.

## Model

| member | source | states |
|---|---|---|
| NtpWire.ZeroMsg | fetchtime.c:110 | the header `memset` leaves serializes to 48 zero bytes |
| NtpWire.Serialize | fetchtime.c:132 | the bytes `send` transmits are 48 long, with the status at offset 0, the origin timestamp at 24 and the transmit timestamp at 40, big-endian |
| NtpWire.Deserialize | fetchtime.c:150 | the header read from a received buffer takes its status from byte 0 |
| NtpWire.DeserializeSerialize | fetchtime.c:130-164 | reading back a sent header gives every field back |
| NtpWire.SerializeDeserialize | fetchtime.c:148-164 | re-serializing a received header gives back the exact 48 bytes received |
| NtpWire.Be32RoundTrip | fetchtime.c:194-196 | big-endian decoding (`ntohl`) inverts big-endian encoding of a 32-bit value |
| NtpWire.Unbe32RoundTrip | fetchtime.c:194-196 | every 4 bytes are the encoding of the value they decode to |
| NtpTime.Micros | fetchtime.c:195-197 | the microseconds of a fraction lie in [0, 1000000] and equal 1000000 exactly when the fraction is 0xFFFFFFFF |
| NtpTime.Extract | fetchtime.c:190-198 | the seconds plus `JAN_1970` give the transmit seconds back; from 1970 on they lie in [0, 2^32 - 1 - `JAN_1970`]; the microseconds are bounded as in `Micros` |
| NtpTime.MicrosMonotone | fetchtime.c:195-197 | a larger fraction never yields fewer microseconds |
| NtpTime.MicrosNearFixedPoint | fetchtime.c:195-197 | the microseconds are at least `floor(frac * 10^6 / 2^32)` and at most one more |
| NtpTime.MicrosFractionFor | fetchtime.c:195-197 | every microsecond count from 0 to 10^6 comes from some fraction (the microsecond map is onto) |
| NtpTime.ExtractEncode | fetchtime.c:194-197 | a transmit timestamp built by `Encode` from a time in NTP era 0 extracts to that very time |
| NtpTime.ExtractSeconds | fetchtime.c:194 | seconds 2208988800 give 0 (the Unix epoch) and 3913056000 give 1704067200 |
| NtpTime.MicrosLandmarks | fetchtime.c:195-197 | fraction 0 gives 0, 2^31 gives 500000, 0xFFFFFFFF gives 1000000 |
| NtpClient.PackStatus | fetchtime.c:112 | mode, version shifted left 3 and leap shifted left 6, or-ed together, has exactly those mode, version and leap fields |
| NtpClient.QueryStatus | fetchtime.c:112 | the query's status is client mode, version 4, leap indicator 0 |
| NtpClient.FlagsSet | fetchtime.c:170-172 | the bits-set test holds exactly when the mode is at least 4 and the version at least 4 |
| NtpClient.ExtraBitsKeepFlags | fetchtime.c:172 | setting further status bits never makes passing flags fail |
| NtpClient.VerifyResponse | fetchtime.c:166-188 | flags are judged first: a response failing them is BadFlags whatever it echoes; a response is Accepted iff its flags pass and its origin timestamp equals the query's transmit timestamp in both halves, so any differing bit (a one-bit flip included) is rejected |
| NtpClient.VerdictIgnoresLeap | fetchtime.c:170-176 | two statuses that agree on the low six bits get the same verdict: the leap bits never matter |
| NtpClient.ClientModeEchoRejected | fetchtime.c:172-176 | a reply whose status has client mode and version 4 is rejected for its flags, for every leap indicator |
| NtpClient.ServerReplyAccepted | fetchtime.c:166-198 | a genuine reply (server mode, version 4, any leap, token echoed), sent over the wire, is accepted and reads as the server's clock |
| NtpClient.SecureRandomU32 | fetchtime.c:28-47 | a draw yields a value iff /dev/urandom opened and the read returned exactly 4 bytes, and the value is the bytes read |
| NtpClient.ClientQuery | fetchtime.c:110-125 | the query has client mode, version 4 and leap indicator 0 |
| NtpClient.ClientQueryBytes | fetchtime.c:108-128 | on the wire the query is status byte 35, then 39 zero bytes, then the token big-endian |
| NtpClient.InitNtpQuery | fetchtime.c:108-128 | it succeeds iff both draws succeed, and then the query is all zero except status MODE_CLIENT or-ed with NTP_VERSION shifted left 3 and transmit seconds and fraction equal to the first and second draws; the second draw is attempted only after the first succeeded; on failure the query holds the status, the first draw if it succeeded, and zeros elsewhere |
| NtpClient.SendNtpQuery | fetchtime.c:130-146 | the serialized query is sent; success iff `send` returned 48, with -1 and a short count as distinct failures |
| NtpClient.ReceiveNtpResponse | fetchtime.c:148-164 | success iff `recv` returned 48, and the response is then the received buffer; -1 and a short count are distinct failures |
| NtpClient.RetrieveTime | fetchtime.c:200-221 | it succeeds iff send count 48, receive count 48 and an accepted verdict, and the time is then the extracted one; the first failing step decides the failure; `recv` is called only after a complete send |
| NtpClient.FetchNtpTime | fetchtime.c:223-241 | a random-source failure makes only urandom reads, with no connect; a failed connect ends after the connect; otherwise the trace is connect, send of the query, receive only after a full send, then close; success iff every step succeeds, and the time is the extracted one; on a connected socket a failure carries the cause of the first failing step: the send fault, then the receive fault, then the rejecting verdict |
| NtpClient.GenuineServerScenario | fetchtime.c:200-221 | a reply echoing the token with clock 3913056000 s and fraction 2^31 is accepted and reads 1704067200 s and 500000 us |
| NtpClient.ForgedReplyRejected | fetchtime.c:178-185 | a reply whose origin timestamp is not the token is never accepted |
| CmdArgs.ParseCmdArgs | fetchtime.c:296-356 | the loop over `argv` from index 1 ends in the outcome of the left-to-right scan `ParseOutcome` |
| CmdArgs.ParsedFlags | fetchtime.c:319-349 | on success: the host is set; `-s` sets the clock iff given; the Unix time is printed iff the later of `-p`/`-u` is `-u`; the pretty time is printed iff that later one is `-p`, or neither is given and `-s` is absent; the two print flags are never both on |
| CmdArgs.ParsedIff | fetchtime.c:305-353 | parsing succeeds iff every argument is `-p`, `-s`, `-u` or a word without a dash and there is exactly one such word; that word is the host |
| CmdArgs.MissingHostname | fetchtime.c:351-353 | a command line of flags alone, with no host, ends with the usage text for the missing host (a failure), not with help |
| CmdArgs.ScanAllAppend | fetchtime.c:305-345 | scanning `front + back` is scanning `front`, then, unless it stopped, scanning `back` |
| CmdArgs.FirstStopDecides | fetchtime.c:305-345 | the first argument that ends the scan decides the outcome whatever follows: `-h` gives help and success, any other bad dash argument gives "Unknown argument", a second word gives "Unknown command" |
| CmdArgs.ScanStopsWithoutResult | fetchtime.c:305-345 | an argument that ends the scan never yields parsed arguments, only help or a usage error |

## Left out

- Host name resolution and socket setup (`resolve_ntp_host`, `connect_to_host`, `connect_to_ntp_host`) are operating-system calls. Only their result is modelled: the socket, or -1.
- Opening and reading /dev/urandom are modelled only by their outcome: open failure, or the count `read` returned with the value read. Closing the urandom descriptor is not in the trace.
- `send` and `recv` are modelled by the count they return and the buffer `recv` leaves. How UDP truncates or drops datagrams, and socket timeouts, are not modelled.
- The diagnostics written with `perror`/`fprintf` become the `Failure` and `Verdict` causes. Their text is not modelled.
- `set_system_time` (`settimeofday`), `print_time` (double arithmetic and `ctime`), `usage`, `die_with_usage`, `exit` and `main` are not modelled. The help and usage exits are the `Help` and `Usage` outcomes.
- The unpredictability of the token is not modelled: the draws are inputs, and nothing about their distribution is claimed.
- The C struct's in-memory byte order is not modelled. Fields carry their network-order values, and a draw is the value its four bytes spell in network order.
- NtpTime.Extract: the seconds are the exact difference `int part - JAN_1970`, negative before 1970. That matches a 64-bit `unsigned long` and `time_t`. The wrap-around a 32-bit `long` would give for int parts below `JAN_1970` is not modelled.
- NtpTime.Micros: the floating-point evaluation itself is not modelled. The integer quotient stands for it, for the reason given above.
