/** The malware-scanner client: the clamd `INSTREAM` byte stream it writes, the verdict it
    reads from the reply, and the `PING` health check. The socket is a record of the bytes
    written plus a list of the events it delivers. */
module ScannerClient {
  import opened Wrappers
  import opened Bytes
  import opened Strings

  /** At most 2 MiB of file data per chunk. */
  const ChunkSize: nat := 2 * 1024 * 1024

  /** The command that opens the stream, `zINSTREAM` and a NUL, as bytes. */
  const InstreamCommand: seq<Byte> := AsciiBytes("zINSTREAM\0")

  /** The health-check command, `zPING` and a NUL, as bytes. */
  const PingCommand: seq<Byte> := AsciiBytes("zPING\0")

  /** The zero-length header that closes the stream. */
  const EndMarker: seq<Byte> := [0, 0, 0, 0]

  /** The reply to `zPING`, once NULs and surrounding whitespace are dropped. */
  const PongReply := "PONG"

  const TimeoutMessage := "ClamAV scan timed out"
  const ConnectionErrorPrefix := "ClamAV connection error: "

  // ---- The INSTREAM byte stream ----

  /** `buf.subarray(start, end)`: indices are clamped to the buffer. */
  function Subarray(buf: seq<Byte>, start: nat, end: nat): (r: seq<Byte>)
    requires start <= end
    ensures |r| <= end - start
    ensures start < |buf| && end <= |buf| ==> r == buf[start..end]
  {
    var s := if start < |buf| then start else |buf|;
    var e := if end < |buf| then end else |buf|;
    buf[s..e]
  }

  /** The chunks the `for` loop cuts from `offset` on. */
  function ChunksFrom(buf: seq<Byte>, offset: nat): (cs: seq<seq<Byte>>)
    ensures forall i :: 0 <= i < |cs| ==> 0 < |cs[i]| <= ChunkSize
    decreases |buf| - offset
  {
    if offset >= |buf| then []
    else [Subarray(buf, offset, offset + ChunkSize)] + ChunksFrom(buf, offset + ChunkSize)
  }

  function Chunks(buf: seq<Byte>): seq<seq<Byte>> {
    ChunksFrom(buf, 0)
  }

  /** Every chunk header fits the 4-byte length field. */
  predicate Framable(cs: seq<seq<Byte>>) {
    forall i :: 0 <= i < |cs| ==> |cs[i]| < Uint32Limit
  }

  lemma ChunksFramable(buf: seq<Byte>, offset: nat)
    ensures Framable(ChunksFrom(buf, offset))
  {
  }

  /** Each chunk preceded by its length, most significant byte first. */
  function Framed(cs: seq<seq<Byte>>): seq<Byte>
    requires Framable(cs)
    decreases |cs|
  {
    if cs == [] then [] else Be32(|cs[0]|) + cs[0] + Framed(cs[1..])
  }

  /** Everything `scanBuffer` writes to the socket for `buf`. */
  function Instream(buf: seq<Byte>): seq<Byte> {
    ChunksFramable(buf, 0);
    InstreamCommand + Framed(Chunks(buf)) + EndMarker
  }

  /** The chunks laid end to end. */
  function Concat(cs: seq<seq<Byte>>): seq<Byte>
    decreases |cs|
  {
    if cs == [] then [] else cs[0] + Concat(cs[1..])
  }

  /** How clamd reads the stream after the command: a 4-byte length, that many bytes, and
      so on until a zero length; `None` when the stream stops early. */
  function Deframe(s: seq<Byte>): Option<seq<Byte>>
    decreases |s|
  {
    if |s| < 4 then None
    else
      var n := Be32Value(s[..4]);
      if n == 0 then Some([])
      else if |s| < 4 + n then None
      else
        match Deframe(s[4 + n..])
        case None => None
        case Some(rest) => Some(s[4..4 + n] + rest)
  }

  // ---- What the stream satisfies ----

  /** The chunks cover the buffer exactly, in order. */
  lemma {:induction false} ChunksCoverBuffer(buf: seq<Byte>, offset: nat)
    requires offset <= |buf|
    ensures Concat(ChunksFrom(buf, offset)) == buf[offset..]
    decreases |buf| - offset
  {
    if offset < |buf| {
      var next := offset + ChunkSize;
      var cs := ChunksFrom(buf, offset);
      assert cs[1..] == ChunksFrom(buf, next);
      if next <= |buf| {
        ChunksCoverBuffer(buf, next);
        assert buf[offset..] == buf[offset..next] + buf[next..];
      } else {
        assert ChunksFrom(buf, next) == [];
        assert Subarray(buf, offset, next) == buf[offset..];
        assert buf[offset..] + [] == buf[offset..];
      }
    }
  }

  /** The buffer is cut into `ceil(|buf| / ChunkSize)` chunks. */
  lemma {:induction false} ChunkCount(buf: seq<Byte>, offset: nat)
    requires offset <= |buf|
    ensures |ChunksFrom(buf, offset)| == (|buf| - offset + ChunkSize - 1) / ChunkSize
    decreases |buf| - offset
  {
    if offset < |buf| {
      var next := offset + ChunkSize;
      if next <= |buf| {
        ChunkCount(buf, next);
        assert (|buf| - offset + ChunkSize - 1) / ChunkSize == (|buf| - next + ChunkSize - 1) / ChunkSize + 1;
      }
    }
  }

  /** Reading back a framed run of non-empty chunks and the end marker gives the chunks'
      contents. */
  lemma {:induction false} DeframeFramed(cs: seq<seq<Byte>>)
    requires Framable(cs)
    requires forall i :: 0 <= i < |cs| ==> |cs[i]| > 0
    ensures Deframe(Framed(cs) + EndMarker) == Some(Concat(cs))
    decreases |cs|
  {
    if cs == [] {
      assert Framed(cs) + EndMarker == EndMarker;
      assert EndMarker[..4] == [0, 0, 0, 0];
    } else {
      var c := cs[0];
      var s := Framed(cs) + EndMarker;
      var tail := Framed(cs[1..]) + EndMarker;
      assert s == Be32(|c|) + c + tail;
      assert s[..4] == Be32(|c|);
      Be32RoundTrip(|c|);
      assert s[4..4 + |c|] == c;
      assert s[4 + |c|..] == tail;
      DeframeFramed(cs[1..]);
    }
  }

  /** clamd recovers the file from what `scanBuffer` writes. */
  lemma InstreamRoundTrip(buf: seq<Byte>)
    ensures StartsWith(Instream(buf), InstreamCommand)
    ensures Deframe(Instream(buf)[|InstreamCommand|..]) == Some(buf)
  {
    ChunksFramable(buf, 0);
    var s := Instream(buf);
    assert s[..|InstreamCommand|] == InstreamCommand;
    assert s[|InstreamCommand|..] == Framed(Chunks(buf)) + EndMarker;
    DeframeFramed(Chunks(buf));
    ChunksCoverBuffer(buf, 0);
  }

  /** The stream ends with four zero bytes; for an empty file it is the command and the
      end marker alone. */
  lemma InstreamEnds(buf: seq<Byte>)
    ensures EndsWith(Instream(buf), EndMarker)
    ensures buf == [] ==> Instream(buf) == InstreamCommand + [0, 0, 0, 0]
  {
    var s := Instream(buf);
    assert s[|s| - 4..] == EndMarker;
  }

  /** The commands are their ASCII letters and a NUL. */
  lemma CommandBytes()
    ensures InstreamCommand == [0x7A, 0x49, 0x4E, 0x53, 0x54, 0x52, 0x45, 0x41, 0x4D, 0x00]
    ensures PingCommand == [0x7A, 0x50, 0x49, 0x4E, 0x47, 0x00]
  {
  }

  // ---- Writing the stream ----

  /** What is still to be written once the chunks before `offset` are out. */
  ghost function Remaining(buf: seq<Byte>, offset: nat): seq<Byte> {
    ChunksFramable(buf, offset);
    Framed(ChunksFrom(buf, offset))
  }

  lemma RemainingStep(buf: seq<Byte>, offset: nat)
    requires offset < |buf|
    ensures var chunk := Subarray(buf, offset, offset + ChunkSize);
      Remaining(buf, offset) == Be32(|chunk|) + chunk + Remaining(buf, offset + ChunkSize)
  {
    FramedStep(buf, offset);
  }

  lemma Regroup(a: seq<Byte>, b: seq<Byte>, c: seq<Byte>, d: seq<Byte>)
    ensures a + (b + c + d) == a + b + c + d
  {
  }

  /** The framing of the chunks from `offset` is the first chunk behind its header, then
      the framing of the rest. */
  lemma FramedStep(buf: seq<Byte>, offset: nat)
    requires offset < |buf|
    ensures Framable(ChunksFrom(buf, offset)) && Framable(ChunksFrom(buf, offset + ChunkSize))
    ensures var chunk := Subarray(buf, offset, offset + ChunkSize);
      Framed(ChunksFrom(buf, offset)) == Be32(|chunk|) + chunk + Framed(ChunksFrom(buf, offset + ChunkSize))
  {
    ChunksFramable(buf, offset);
    ChunksFramable(buf, offset + ChunkSize);
    assert ChunksFrom(buf, offset)[1..] == ChunksFrom(buf, offset + ChunkSize);
  }

  /** The socket as far as writing goes: every byte written so far. */
  class ScanSocket {
    var sent: seq<Byte>

    constructor ()
      ensures sent == []
    {
      sent := [];
    }

    /** `socket.write(data)`. */
    method Write(data: seq<Byte>)
      modifies this
      ensures sent == old(sent) + data
    {
      sent := sent + data;
    }

    /** The `for` loop of `scanBuffer`: each chunk behind its length header. */
    method SendChunks(buf: seq<Byte>)
      modifies this
      ensures Framable(Chunks(buf)) && sent == old(sent) + Framed(Chunks(buf))
    {
      ChunksFramable(buf, 0);
      ghost var expected := old(sent) + Remaining(buf, 0);
      var offset: nat := 0;
      while offset < |buf|
        invariant sent + Remaining(buf, offset) == expected
        decreases |buf| - offset
      {
        var chunk := Subarray(buf, offset, offset + ChunkSize);
        RemainingStep(buf, offset);
        Regroup(sent, Be32(|chunk|), chunk, Remaining(buf, offset + ChunkSize));
        Write(Be32(|chunk|));
        Write(chunk);
        offset := offset + ChunkSize;
      }
      assert Remaining(buf, offset) == [];
      assert sent + [] == sent;
    }

    /** The `connect` callback of `pingClamAV`. */
    method SendPing()
      modifies this
      ensures sent == old(sent) + PingCommand
    {
      Write(PingCommand);
    }

    /** The `connect` callback of `scanBuffer`: the command, each chunk behind its length
        header, then the end marker. */
    method SendInstream(buf: seq<Byte>)
      modifies this
      ensures sent == old(sent) + Instream(buf)
    {
      Write(InstreamCommand);
      SendChunks(buf);
      Write(EndMarker);
      assert sent == old(sent) + (InstreamCommand + Framed(Chunks(buf)) + EndMarker);
    }
  }

  // ---- Reading the reply ----

  /** What the socket delivers: text on `data`, `end`, `error`, or the timer firing. */
  datatype SocketEvent = Data(text: string) | End | SocketError(message: string) | Timeout

  datatype ScanResult = ScanResult(clean: bool, detail: string)

  /** `s.replace(/\0/g, '').trim()`. */
  function Normalize(s: string): (t: string)
    ensures '\0' !in t
  {
    Trim(RemoveAll(s, '\0'))
  }

  /** The verdict on a complete reply: clean when the normalized text ends with `OK`. */
  function Classify(response: string): (r: ScanResult)
    ensures r.detail == Normalize(response)
    ensures r.clean <==> EndsWith(Normalize(response), "OK")
  {
    var trimmed := Normalize(response);
    ScanResult(EndsWith(trimmed, "OK"), trimmed)
  }

  /** How `scanBuffer`'s promise settles after `events`, given the text received so far:
      the first `end`, `error` or timeout decides; `None` while none has come. */
  function ScanSettlement(events: seq<SocketEvent>, response: string): Option<Result<ScanResult, string>>
    decreases |events|
  {
    if events == [] then None
    else
      match events[0]
      case Data(t) => ScanSettlement(events[1..], response + t)
      case End => Some(Ok(Classify(response)))
      case SocketError(m) => Some(Err(ConnectionErrorPrefix + m))
      case Timeout => Some(Err(TimeoutMessage))
  }

  /** The text of the `data` events, in order. */
  function DataText(events: seq<SocketEvent>): string
    decreases |events|
  {
    if events == [] then ""
    else if events[0].Data? then events[0].text + DataText(events[1..])
    else DataText(events[1..])
  }

  /** The promise settles at the first event that is not `data`. */
  predicate SettlesAt(events: seq<SocketEvent>, k: nat) {
    k < |events| && !events[k].Data? && forall j :: 0 <= j < k ==> events[j].Data?
  }

  /** `scanBuffer`'s event handlers: the `data` handler appends to `response`, `end`
      classifies it, `error` and the timer reject. */
  method AwaitScan(events: seq<SocketEvent>) returns (outcome: Option<Result<ScanResult, string>>)
    ensures outcome == ScanSettlement(events, "")
  {
    var response := "";
    var i := 0;
    outcome := None;
    while i < |events| && outcome.None?
      invariant 0 <= i <= |events|
      invariant outcome.None? ==> ScanSettlement(events, "") == ScanSettlement(events[i..], response)
      invariant outcome.Some? ==> outcome == ScanSettlement(events, "")
      decreases |events| - i
    {
      var e := events[i];
      assert events[i..][1..] == events[i + 1..];
      match e {
        case Data(t) =>
          response := response + t;
        case End =>
          outcome := Some(Ok(Classify(response)));
        case SocketError(m) =>
          outcome := Some(Err(ConnectionErrorPrefix + m));
        case Timeout =>
          outcome := Some(Err(TimeoutMessage));
      }
      i := i + 1;
    }
  }

  /** Before the settling event only text arrives; the text of a run of `data` events
      followed by more events is the text of the run and then of the rest. */
  lemma DataTextFirst(events: seq<SocketEvent>, k: nat)
    requires 0 < k <= |events| && events[0].Data?
    ensures DataText(events[..k]) == events[0].text + DataText(events[1..][..k - 1])
  {
    assert events[..k][1..] == events[1..][..k - 1];
  }

  /** The scan settles at its first non-`data` event: the reply that is classified is all
      the text received before `end`, and `error` and the timer reject. */
  lemma {:induction false} SettlementReadsAllData(events: seq<SocketEvent>, response: string, k: nat)
    requires SettlesAt(events, k)
    ensures events[k].End? ==>
      ScanSettlement(events, response) == Some(Ok(Classify(response + DataText(events[..k]))))
    ensures events[k].SocketError? ==>
      ScanSettlement(events, response) == Some(Err(ConnectionErrorPrefix + events[k].message))
    ensures events[k].Timeout? ==> ScanSettlement(events, response) == Some(Err(TimeoutMessage))
    decreases k
  {
    if k == 0 {
      assert events[..0] == [];
      assert response + [] == response;
    } else {
      var t := events[0].text;
      var rest := events[1..];
      assert SettlesAt(rest, k - 1) by {
        assert forall j :: 0 <= j < k - 1 ==> rest[j] == events[j + 1];
        assert rest[k - 1] == events[k];
      }
      SettlementReadsAllData(rest, response + t, k - 1);
      DataTextFirst(events, k);
      assert rest[k - 1] == events[k];
      assert response + t + DataText(rest[..k - 1]) == response + (t + DataText(rest[..k - 1]));
    }
  }

  /** A reply that never ends never settles the scan. */
  lemma {:induction false} OnlyDataNeverSettles(events: seq<SocketEvent>, response: string)
    requires forall j :: 0 <= j < |events| ==> events[j].Data?
    ensures ScanSettlement(events, response) == None
    decreases |events|
  {
    if events != [] {
      OnlyDataNeverSettles(events[1..], response + events[0].text);
    }
  }

  /** Normalizing is idempotent: the detail of a verdict classifies like the reply. */
  lemma NormalizeIdempotent(s: string)
    ensures Normalize(Normalize(s)) == Normalize(s)
    ensures Classify(Normalize(s)) == Classify(s)
  {
    var t := Normalize(s);
    NoNulRemoveAll(t);
    TrimIdempotent(RemoveAll(s, '\0'));
  }

  /** Removing NULs from a string without them changes nothing. */
  lemma {:induction false} NoNulRemoveAll(t: string)
    requires '\0' !in t
    ensures RemoveAll(t, '\0') == t
    decreases |t|
  {
    if t != [] {
      var init := t[..|t| - 1];
      assert '\0' !in init by {
        assert forall i :: 0 <= i < |init| ==> init[i] == t[i];
      }
      NoNulRemoveAll(init);
      assert t == init + [t[|t| - 1]];
    }
  }

  /** NULs anywhere in the reply do not change the verdict. */
  lemma ClassifyIgnoresNul(a: string, b: string)
    ensures Classify(a + "\0" + b) == Classify(a + b)
  {
    FilterAppend(a + "\0", b, x => x != '\0');
    FilterAppend(a, "\0", x => x != '\0');
    FilterAppend(a, b, x => x != '\0');
    assert RemoveAll("\0", '\0') == [] by {
      assert "\0"[..0] == [];
    }
    assert RemoveAll(a, '\0') + [] == RemoveAll(a, '\0');
  }

  /** A reply with no NUL and no surrounding whitespace is its own detail, and is clean
      exactly when it ends with `OK`. */
  lemma PlainReply(reply: string)
    requires '\0' !in reply
    requires |reply| > 0 ==> !IsWhitespace(reply[0]) && !IsWhitespace(reply[|reply| - 1])
    ensures Classify(reply).detail == reply
    ensures Classify(reply).clean <==> EndsWith(reply, "OK")
  {
    NoNulRemoveAll(reply);
    TrimOfTrimmed(reply);
  }

  // ---- The health check ----

  /** What one event decides for `pingClamAV`: the first `data` event compares its text
      with `PONG`; `error` and the timer give `false`; `end` has no handler. */
  function PingVerdict(e: SocketEvent): Option<bool> {
    match e
    case Data(t) => Some(Normalize(t) == PongReply)
    case End => None
    case SocketError(_) => Some(false)
    case Timeout => Some(false)
  }

  /** How `pingClamAV` settles: at the first event other than `end`. */
  function PingSettlement(events: seq<SocketEvent>): Option<bool>
    decreases |events|
  {
    if events == [] then None
    else if events[0].End? then PingSettlement(events[1..])
    else PingVerdict(events[0])
  }

  /** The index of the first event that is not `end`, or the number of events. */
  function FirstNonEnd(events: seq<SocketEvent>): (k: nat)
    ensures k <= |events|
    ensures forall j :: 0 <= j < k ==> events[j].End?
    ensures k < |events| ==> !events[k].End?
    decreases |events|
  {
    if events == [] || !events[0].End? then 0 else FirstNonEnd(events[1..]) + 1
  }

  /** The ping is decided by the first event that is not `end`. */
  lemma {:induction false} PingSettlesAtFirstNonEnd(events: seq<SocketEvent>, k: nat)
    requires k <= |events| && forall j :: 0 <= j < k ==> events[j].End?
    requires k < |events| ==> !events[k].End?
    ensures PingSettlement(events) == if k < |events| then PingVerdict(events[k]) else None
    decreases k
  {
    if k > 0 {
      var rest := events[1..];
      assert PingSettlement(events) == PingSettlement(rest);
      assert forall j :: 0 <= j < k - 1 ==> rest[j] == events[j + 1];
      PingSettlesAtFirstNonEnd(rest, k - 1);
      if k < |events| {
        assert rest[k - 1] == events[k];
      }
    }
  }

  /** The ping succeeds exactly when, before any error or timeout, the first `data` event
      reads `PONG` once NULs and surrounding whitespace are dropped. */
  lemma PingSucceedsExactly(events: seq<SocketEvent>)
    ensures PingSettlement(events) == Some(true) <==>
      exists k :: 0 <= k < |events| && events[k].Data? && Normalize(events[k].text) == PongReply
                  && forall j :: 0 <= j < k ==> events[j].End?
  {
    var first := FirstNonEnd(events);
    PingSettlesAtFirstNonEnd(events, first);
    if exists k :: 0 <= k < |events| && events[k].Data? && Normalize(events[k].text) == PongReply
                   && forall j :: 0 <= j < k ==> events[j].End? {
      var k :| 0 <= k < |events| && events[k].Data? && Normalize(events[k].text) == PongReply
               && forall j :: 0 <= j < k ==> events[j].End?;
      assert k == first;
    }
  }

  /** Without a reply the ping fails once an error or the timeout comes. */
  lemma PingFailsWithoutReply(e: SocketEvent, rest: seq<SocketEvent>)
    requires e.SocketError? || e.Timeout?
    ensures PingSettlement([e] + rest) == Some(false)
  {
  }
}
