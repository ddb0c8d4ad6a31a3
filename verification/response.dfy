/**
 * The write-once response of ServerResponse.swift.
 *
 * The NIO channel is an append-only log of what the response hands to it: the
 * response parts written with `writeAndFlush` (head, body, end) and `close()`.
 * Write completion is taken as synchronous, and whether a write fails is
 * decided by the channel: the write that becomes entry i of the log fails
 * exactly when i is in the channel's `failing` set.
 *
 * The pure functions After* give the state after each operation; the class
 * ServerResponse performs the operations step by step and is proved to reach
 * exactly those states. WellFormed is the invariant every operation keeps.
 */
module Response {
  import opened Wrappers
  import opened Encoding
  import opened Headers

  datatype Version = Version(major: nat, minor: nat)

  const Http11: Version := Version(1, 1)

  /** `HTTPResponseStatus.ok`, the status a new response starts with. */
  const OK: nat := 200

  /** `HTTPServerResponsePart`. */
  datatype Part =
    | Head(version: Version, status: nat, headers: Fields)
    | Body(bytes: seq<byte>)
    | End

  /** What the channel sees. */
  datatype Event = Write(part: Part) | Close

  /** The observable state of a response: its fields and its channel's log. */
  datatype ResponseState = ResponseState(
    status: nat,
    headers: Fields,
    didWriteHeader: bool,
    didEnd: bool,
    log: seq<Event>)

  /** A response as `init(channel:)` leaves it, on a channel nothing has been written to. */
  function Fresh(): ResponseState {
    ResponseState(OK, [], false, false, [])
  }

  /** Whether the write that would become the next log entry succeeds. */
  predicate Succeeds(failing: set<nat>, log: seq<Event>) {
    |log| !in failing
  }

  /**
   * `end()`: only on its first call, marks the response ended and writes the
   * end part; the channel is closed once that write has succeeded.
   */
  function AfterEnd(r: ResponseState, failing: set<nat>): (e: ResponseState)
    ensures e.didEnd
    ensures r.didEnd ==> e == r
    ensures e.status == r.status && e.headers == r.headers && e.didWriteHeader == r.didWriteHeader
    ensures r.log <= e.log
    ensures forall i :: |r.log| <= i < |e.log| ==> e.log[i] == Write(End) || e.log[i] == Close
  {
    if r.didEnd then r
    else
      var r1 := r.(didEnd := true, log := r.log + [Write(End)]);
      if Succeeds(failing, r.log) then r1.(log := r1.log + [Close]) else r1
  }

  /**
   * `flushHeader()`: only on its first call, writes the head built from the
   * current status and headers; a failed write goes to `handleError`, which ends.
   */
  function AfterFlushHeader(r: ResponseState, failing: set<nat>): (f: ResponseState)
    ensures f.didWriteHeader
    ensures r.didWriteHeader ==> f == r
    ensures f.status == r.status && f.headers == r.headers
    ensures r.didEnd ==> f.didEnd
    ensures r.log <= f.log
  {
    if r.didWriteHeader then r
    else
      var r1 := r.(didWriteHeader := true, log := r.log + [Write(Head(Http11, r.status, r.headers))]);
      if Succeeds(failing, r.log) then r1 else AfterEnd(r1, failing)
  }

  /**
   * `send(bytes:)`: flushes the head, stops if the response has ended, writes
   * one body part, routes a failed write to `handleError` and then ends.
   */
  function AfterSend(r: ResponseState, bytes: seq<byte>, failing: set<nat>): (s: ResponseState)
    ensures s.didWriteHeader && s.didEnd
    ensures s.status == r.status && s.headers == r.headers
    ensures r.log <= s.log
  {
    var r1 := AfterFlushHeader(r, failing);
    if r1.didEnd then r1
    else
      var r2 := r1.(log := r1.log + [Write(Body(bytes))]);
      var r3 := if Succeeds(failing, r1.log) then r2 else AfterEnd(r2, failing);
      AfterEnd(r3, failing)
  }

  /** The header subscript's setter: `Some(v)` replaces or adds, `None` removes; only before the head is out. */
  function AfterSetHeader(r: ResponseState, name: string, value: Option<string>): (h: ResponseState)
    requires !r.didWriteHeader
    ensures h.log == r.log && h.status == r.status && h.didWriteHeader == r.didWriteHeader && h.didEnd == r.didEnd
  {
    r.(headers := if value.Some? then ReplaceOrAdd(r.headers, name, value.value) else Remove(r.headers, name))
  }

  /**
   * `json(_:)`, given what the encoder produced: on an encoder failure the
   * error goes to `handleError`; otherwise Content-Type and Content-Length are
   * set and the data is sent as `send(bytes:)` does.
   */
  function AfterJson(r: ResponseState, encoded: Option<seq<byte>>, failing: set<nat>): (j: ResponseState)
    requires encoded.Some? ==> !r.didWriteHeader
    ensures j.didEnd
    ensures r.didWriteHeader ==> j.didWriteHeader
    ensures r.log <= j.log
  {
    match encoded
    case None => AfterEnd(r, failing)
    case Some(data) =>
      var r1 := AfterSetHeader(r, "Content-Type", Some("application/json"));
      var r2 := AfterSetHeader(r1, "Content-Length", Some(Decimal(|data|)));
      AfterSend(r2, data, failing)
  }

  // ---------------------------------------------------------------------------
  // The shape of the log, read by an automaton. Each phase is named after the
  // log it stands for (H head, B body, E end, C close).

  datatype Phase =
    | Empty        // []
    | H            // [H]
    | HB           // [H, B], only in the middle of a send
    | HE           // [H, E]
    | HEC          // [H, E, C]
    | HBE          // [H, B, E]
    | HBEC         // [H, B, E, C]
    | E            // [E]
    | EC           // [E, C]
    | EH           // [E, H]
    | ECH          // [E, C, H]
    | Broken       // anything else

  function Next(p: Phase, ev: Event): Phase {
    match (p, ev)
    case (Empty, Write(Head(_, _, _))) => H
    case (Empty, Write(End)) => E
    case (H, Write(Body(_))) => HB
    case (H, Write(End)) => HE
    case (HB, Write(End)) => HBE
    case (HE, Close) => HEC
    case (HBE, Close) => HBEC
    case (E, Close) => EC
    case (E, Write(Head(_, _, _))) => EH
    case (EC, Write(Head(_, _, _))) => ECH
    case _ => Broken
  }

  function PhaseOf(log: seq<Event>): Phase {
    if log == [] then Empty else Next(PhaseOf(log[..|log| - 1]), log[|log| - 1])
  }

  predicate HasHead(p: Phase) {
    p in {H, HB, HE, HEC, HBE, HBEC, EH, ECH}
  }

  predicate HasEnd(p: Phase) {
    p in {HE, HEC, HBE, HBEC, E, EC, EH, ECH}
  }

  /**
   * The response invariant: the log is one a response can leave behind, and
   * the two flags record whether it holds a head and an end. A body is always
   * written between the head and the end; a close always follows the end; a
   * head can still follow the end when the response was ended before any head
   * was written.
   */
  predicate WellFormed(r: ResponseState) {
    var p := PhaseOf(r.log);
    p != Broken && p != HB && r.didWriteHeader == HasHead(p) && r.didEnd == HasEnd(p)
  }

  lemma PhaseOfAppend(log: seq<Event>, ev: Event)
    ensures PhaseOf(log + [ev]) == Next(PhaseOf(log), ev)
  {
  }

  lemma EndKeepsWellFormed(r: ResponseState, failing: set<nat>)
    requires WellFormed(r)
    ensures WellFormed(AfterEnd(r, failing))
  {
    if !r.didEnd {
      var l1 := r.log + [Write(End)];
      PhaseOfAppend(r.log, Write(End));
      PhaseOfAppend(l1, Close);
      if PhaseOf(r.log) == Empty {
        assert PhaseOf(l1) == E && PhaseOf(l1 + [Close]) == EC;
      } else {
        assert PhaseOf(r.log) == H;
        assert PhaseOf(l1) == HE && PhaseOf(l1 + [Close]) == HEC;
      }
    }
  }

  lemma FlushHeaderKeepsWellFormed(r: ResponseState, failing: set<nat>)
    requires WellFormed(r)
    ensures WellFormed(AfterFlushHeader(r, failing))
  {
    if !r.didWriteHeader {
      var head := Write(Head(Http11, r.status, r.headers));
      var r1 := r.(didWriteHeader := true, log := r.log + [head]);
      PhaseOfAppend(r.log, head);
      EndKeepsWellFormed(r1, failing);
    }
  }

  /** Ending a response whose log is [H, B] leaves [H, B, E] or [H, B, E, C]. */
  lemma EndAfterBody(r: ResponseState, failing: set<nat>)
    requires PhaseOf(r.log) == HB && r.didWriteHeader && !r.didEnd
    ensures WellFormed(AfterEnd(r, failing))
  {
  }

  lemma SendKeepsWellFormed(r: ResponseState, bytes: seq<byte>, failing: set<nat>)
    requires WellFormed(r)
    ensures WellFormed(AfterSend(r, bytes, failing))
  {
    var r1 := AfterFlushHeader(r, failing);
    FlushHeaderKeepsWellFormed(r, failing);
    if !r1.didEnd {
      var r2 := r1.(log := r1.log + [Write(Body(bytes))]);
      PhaseOfAppend(r1.log, Write(Body(bytes)));
      EndAfterBody(r2, failing);
    }
  }

  lemma JsonKeepsWellFormed(r: ResponseState, encoded: Option<seq<byte>>, failing: set<nat>)
    requires WellFormed(r)
    requires encoded.Some? ==> !r.didWriteHeader
    ensures WellFormed(AfterJson(r, encoded, failing))
  {
    match encoded
    case None => EndKeepsWellFormed(r, failing);
    case Some(data) =>
      var r1 := AfterSetHeader(r, "Content-Type", Some("application/json"));
      var r2 := AfterSetHeader(r1, "Content-Length", Some(Decimal(|data|)));
      SendKeepsWellFormed(r2, data, failing);
  }

  // ---------------------------------------------------------------------------
  // What the invariant says about the order of the log

  predicate IsHead(ev: Event) {
    ev.Write? && ev.part.Head?
  }

  predicate IsBody(ev: Event) {
    ev.Write? && ev.part.Body?
  }

  lemma PhaseAt(log: seq<Event>, j: nat)
    requires j < |log|
    ensures PhaseOf(log[..j + 1]) == Next(PhaseOf(log[..j]), log[j])
  {
    assert log[..j + 1][..j] == log[..j];
  }

  lemma {:induction false} PrefixNotBroken(log: seq<Event>, j: nat)
    requires j <= |log| && PhaseOf(log) != Broken
    ensures PhaseOf(log[..j]) != Broken
    decreases |log| - j
  {
    if j < |log| {
      PrefixNotBroken(log, j + 1);
      PhaseAt(log, j);
    } else {
      assert log[..j] == log;
    }
  }

  /** Once a prefix of the log holds a head (an end), every longer prefix that is not broken does too. */
  lemma {:induction false} MarksStay(log: seq<Event>, i: nat, j: nat)
    requires i <= j <= |log| && PhaseOf(log[..j]) != Broken
    ensures HasHead(PhaseOf(log[..i])) ==> HasHead(PhaseOf(log[..j]))
    ensures HasEnd(PhaseOf(log[..i])) ==> HasEnd(PhaseOf(log[..j]))
    decreases j - i
  {
    if i < j {
      PhaseAt(log, j - 1);
      MarksStay(log, i, j - 1);
    }
  }

  lemma {:induction false} HeadOnce(log: seq<Event>, i: nat, j: nat)
    requires PhaseOf(log) != Broken && i < j < |log|
    ensures IsHead(log[i]) ==> !IsHead(log[j])
  {
    PrefixNotBroken(log, i + 1);
    PrefixNotBroken(log, j + 1);
    PhaseAt(log, i);
    PhaseAt(log, j);
    MarksStay(log, i + 1, j);
  }

  lemma {:induction false} EndOnce(log: seq<Event>, i: nat, j: nat)
    requires PhaseOf(log) != Broken && i < j < |log|
    ensures log[i] == Write(End) ==> log[j] != Write(End)
  {
    PrefixNotBroken(log, i + 1);
    PrefixNotBroken(log, j + 1);
    PhaseAt(log, i);
    PhaseAt(log, j);
    MarksStay(log, i + 1, j);
  }

  lemma {:induction false} CloseFollowsEnd(log: seq<Event>, j: nat)
    requires PhaseOf(log) != Broken && j < |log|
    ensures log[j] == Close ==> 0 < j && log[j - 1] == Write(End)
  {
    PrefixNotBroken(log, j + 1);
    PhaseAt(log, j);
    if j > 0 {
      PhaseAt(log, j - 1);
    }
  }

  lemma {:induction false} BodyBetweenHeadAndEnd(log: seq<Event>, j: nat)
    requires PhaseOf(log) != Broken && PhaseOf(log) != HB && j < |log|
    ensures IsBody(log[j]) ==> 0 < j < |log| - 1 && IsHead(log[j - 1]) && log[j + 1] == Write(End)
  {
    PrefixNotBroken(log, j + 1);
    PhaseAt(log, j);
    if j > 0 {
      PhaseAt(log, j - 1);
    }
    if j + 1 < |log| {
      PrefixNotBroken(log, j + 2);
      PhaseAt(log, j + 1);
    } else {
      assert log[..j + 1] == log;
    }
  }

  /**
   * In a well-formed log the head and the end are each written at most once,
   * a close comes right after the end, and a body comes right between the
   * head and the end, so at most one body and one close are ever written.
   */
  lemma WellFormedLogOrder(r: ResponseState)
    requires WellFormed(r)
    ensures forall i, j :: 0 <= i < j < |r.log| && IsHead(r.log[i]) ==> !IsHead(r.log[j])
    ensures forall i, j :: 0 <= i < j < |r.log| && r.log[i] == Write(End) ==> r.log[j] != Write(End)
    ensures forall j :: 0 <= j < |r.log| && r.log[j] == Close ==> 0 < j && r.log[j - 1] == Write(End)
    ensures forall j :: 0 <= j < |r.log| && IsBody(r.log[j]) ==>
      0 < j < |r.log| - 1 && IsHead(r.log[j - 1]) && r.log[j + 1] == Write(End)
    ensures forall i, j :: 0 <= i < j < |r.log| && IsBody(r.log[i]) ==> !IsBody(r.log[j])
    ensures forall i, j :: 0 <= i < j < |r.log| && r.log[i] == Close ==> r.log[j] != Close
  {
    var log := r.log;
    forall i, j | 0 <= i < j < |log| && IsHead(log[i]) ensures !IsHead(log[j]) {
      HeadOnce(log, i, j);
    }
    forall i, j | 0 <= i < j < |log| && log[i] == Write(End) ensures log[j] != Write(End) {
      EndOnce(log, i, j);
    }
    forall j | 0 <= j < |log| && log[j] == Close ensures 0 < j && log[j - 1] == Write(End) {
      CloseFollowsEnd(log, j);
    }
    forall j | 0 <= j < |log| && IsBody(log[j])
      ensures 0 < j < |log| - 1 && IsHead(log[j - 1]) && log[j + 1] == Write(End)
    {
      BodyBetweenHeadAndEnd(log, j);
    }
    forall i, j | 0 <= i < j < |log| && IsBody(log[i]) ensures !IsBody(log[j]) {
      BodyBetweenHeadAndEnd(log, i);
      BodyBetweenHeadAndEnd(log, j);
      HeadOnce(log, i - 1, j - 1);
    }
    forall i, j | 0 <= i < j < |log| && log[i] == Close ensures log[j] != Close {
      CloseFollowsEnd(log, i);
      CloseFollowsEnd(log, j);
      EndOnce(log, i - 1, j - 1);
    }
  }

  // ---------------------------------------------------------------------------
  // Scenarios

  /** `send` on a response nothing has been written to, with every write succeeding: head, body, end, close. */
  lemma SendOnFreshResponse(status: nat, headers: Fields, s: string)
    ensures AfterSend(ResponseState(status, headers, false, false, []), Utf8(s), {}).log ==
      [Write(Head(Http11, status, headers)), Write(Body(Utf8(s))), Write(End), Close]
  {
  }

  /**
   * Once the response has ended, `send` writes no body: at most the head goes
   * out, and only when none was written before the end.
   */
  lemma NoBodyAfterEnd(r: ResponseState, bytes: seq<byte>, failing: set<nat>)
    requires r.didEnd
    ensures AfterSend(r, bytes, failing).log ==
      r.log + if r.didWriteHeader then [] else [Write(Head(Http11, r.status, r.headers))]
  {
  }

  /**
   * On a response whose head is not out, the first thing `send(bytes:)`
   * writes is the head built from the current status and headers, whether or
   * not the response has already ended.
   */
  lemma SendWritesHeadFirst(r: ResponseState, bytes: seq<byte>, failing: set<nat>)
    requires !r.didWriteHeader
    ensures var s := AfterSend(r, bytes, failing);
      |s.log| > |r.log| && s.log[|r.log|] == Write(Head(Http11, r.status, r.headers))
  {
    var r1 := AfterFlushHeader(r, failing);
    assert r.log + [Write(Head(Http11, r.status, r.headers))] <= r1.log;
    assert r1.log <= AfterSend(r, bytes, failing).log;
  }

  /** The Content-Type and Content-Length that `json` sets for `n` bytes of encoded data. */
  function JsonHeaders(h: Fields, n: nat): Fields {
    ReplaceOrAdd(ReplaceOrAdd(h, "Content-Type", "application/json"), "Content-Length", Decimal(n))
  }

  /**
   * The headers `json` sets read back as it means them: Content-Type is
   * "application/json", and Content-Length is the decimal count, which parses
   * back to the number of encoded bytes.
   */
  lemma JsonHeadersRead(h: Fields, n: nat)
    ensures Get(JsonHeaders(h, n), "Content-Type") == "application/json"
    ensures Get(JsonHeaders(h, n), "Content-Length") == Decimal(n)
    ensures ParseDecimal(Get(JsonHeaders(h, n), "Content-Length")) == n
  {
    var h1 := ReplaceOrAdd(h, "Content-Type", "application/json");
    GetAfterSet(h1, "Content-Length", Decimal(n));
    assert !SameName("Content-Length", "Content-Type") by {
      assert |LowerAsciiName("Content-Length")| != |LowerAsciiName("Content-Type")|;
    }
    ValuesOfReplaceOrAdd(h1, "Content-Length", Decimal(n), "Content-Type");
    GetAfterSet(h, "Content-Type", "application/json");
    ParseDecimalOfDecimal(n);
  }

  /**
   * When the encoder succeeds on a response whose head is not out, the head
   * that `json` writes carries Content-Type "application/json" and a
   * Content-Length that reads back as the number of encoded bytes, and the
   * response ends.
   */
  lemma JsonSuccess(r: ResponseState, data: seq<byte>, failing: set<nat>)
    requires !r.didWriteHeader
    ensures var j := AfterJson(r, Some(data), failing);
      && |j.log| > |r.log|
      && j.log[|r.log|] == Write(Head(Http11, r.status, JsonHeaders(r.headers, |data|)))
      && j.didEnd
    ensures Get(JsonHeaders(r.headers, |data|), "Content-Type") == "application/json"
    ensures Get(JsonHeaders(r.headers, |data|), "Content-Length") == Decimal(|data|)
    ensures ParseDecimal(Get(JsonHeaders(r.headers, |data|), "Content-Length")) == |data|
  {
    var r2 := r.(headers := JsonHeaders(r.headers, |data|));
    assert AfterJson(r, Some(data), failing) == AfterSend(r2, data, failing);
    SendWritesHeadFirst(r2, data, failing);
    JsonHeadersRead(r.headers, |data|);
  }

  /**
   * The body that `json` sends is the encoded data, the bytes its
   * Content-Length counts: when the response had not ended and the head write
   * succeeds, the part right after the head is that body.
   */
  lemma JsonSendsData(r: ResponseState, data: seq<byte>, failing: set<nat>)
    requires !r.didWriteHeader
    ensures var j := AfterJson(r, Some(data), failing);
      !r.didEnd && |r.log| !in failing ==> |j.log| > |r.log| + 1 && j.log[|r.log| + 1] == Write(Body(data))
  {
    var r2 := r.(headers := JsonHeaders(r.headers, |data|));
    assert AfterJson(r, Some(data), failing) == AfterSend(r2, data, failing);
    if !r.didEnd && |r.log| !in failing {
      var r1 := AfterFlushHeader(r2, failing);
      assert r1.log == r.log + [Write(Head(Http11, r.status, r2.headers))] && !r1.didEnd;
      assert r1.log + [Write(Body(data))] <= AfterSend(r2, data, failing).log;
    }
  }

  /**
   * Once the response has ended, `json` writes no body, whatever the encoder
   * produced: the `didEnd` guard comes before the body write.
   */
  lemma JsonNoBodyAfterEnd(r: ResponseState, encoded: Option<seq<byte>>, failing: set<nat>)
    requires r.didEnd && (encoded.Some? ==> !r.didWriteHeader)
    ensures var j := AfterJson(r, encoded, failing);
      forall i :: |r.log| <= i < |j.log| ==> !IsBody(j.log[i])
  {
  }

  /** When the encoder fails, `json` writes neither head nor body: it only ends the response. */
  lemma JsonEncodeFailure(r: ResponseState, failing: set<nat>)
    ensures var j := AfterJson(r, None, failing);
      && j.didEnd && r.log <= j.log
      && forall i :: |r.log| <= i < |j.log| ==> j.log[i] == Write(End) || j.log[i] == Close
  {
  }

  // ---------------------------------------------------------------------------
  // The objects

  /** The part of the NIO channel the response uses: `writeAndFlush` and `close`. */
  class Channel {
    var log: seq<Event>
    const failing: set<nat>

    constructor (failing: set<nat>)
      ensures log == [] && this.failing == failing
    {
      log := [];
      this.failing := failing;
    }

    /** Hands a part to the channel; `ok` is how the write completes. */
    method WriteAndFlush(part: Part) returns (ok: bool)
      modifies this
      ensures log == old(log) + [Write(part)]
      ensures ok == Succeeds(failing, old(log))
    {
      ok := Succeeds(failing, log);
      log := log + [Write(part)];
    }

    method Close()
      modifies this
      ensures log == old(log) + [Event.Close]
    {
      log := log + [Event.Close];
    }
  }

  /** ServerResponse.swift's `ServerResponse`. */
  class ServerResponse {
    var status: nat
    var headers: Fields
    const channel: Channel
    var didWriteHeader: bool
    var didEnd: bool

    function Observed(): ResponseState
      reads this, channel
    {
      ResponseState(status, headers, didWriteHeader, didEnd, channel.log)
    }

    ghost predicate Valid()
      reads this, channel
    {
      WellFormed(Observed())
    }

    /** `init(channel:)`: status 200 OK, no headers, nothing written; the channel carries this response only. */
    constructor (channel: Channel)
      requires channel.log == []
      ensures Valid() && this.channel == channel
      ensures Observed() == Fresh()
    {
      status := OK;
      headers := [];
      this.channel := channel;
      didWriteHeader := false;
      didEnd := false;
    }

    /** `end()`. */
    method End()
      modifies this, channel
      ensures Observed() == AfterEnd(old(Observed()), channel.failing)
      ensures old(Valid()) ==> Valid()
    {
      if didEnd {
        return;
      }
      ghost var before := Observed();
      didEnd := true;
      var ok := channel.WriteAndFlush(Part.End);
      if ok {
        channel.Close();
      }
      if WellFormed(before) {
        EndKeepsWellFormed(before, channel.failing);
      }
    }

    /** `handleError(_:)`: every write failure ends the response; the logging is not modelled. */
    method HandleError()
      modifies this, channel
      ensures Observed() == AfterEnd(old(Observed()), channel.failing)
      ensures old(Valid()) ==> Valid()
    {
      End();
    }

    /** `flushHeader()`. */
    method FlushHeader()
      modifies this, channel
      ensures Observed() == AfterFlushHeader(old(Observed()), channel.failing)
      ensures old(Valid()) ==> Valid()
    {
      if didWriteHeader {
        return;
      }
      ghost var before := Observed();
      didWriteHeader := true;
      var ok := channel.WriteAndFlush(Head(Http11, status, headers));
      if !ok {
        HandleError();
      }
      if WellFormed(before) {
        FlushHeaderKeepsWellFormed(before, channel.failing);
      }
    }

    /** `send(bytes:)`. */
    method SendBytes(bytes: seq<byte>)
      requires Valid()
      modifies this, channel
      ensures Valid()
      ensures Observed() == AfterSend(old(Observed()), bytes, channel.failing)
    {
      ghost var before := Observed();
      FlushHeader();
      if didEnd {
        SendKeepsWellFormed(before, bytes, channel.failing);
        return;
      }
      var ok := channel.WriteAndFlush(Body(bytes));
      if !ok {
        HandleError();
      }
      End();
      SendKeepsWellFormed(before, bytes, channel.failing);
    }

    /** `send(_:)`: sends the string's UTF-8 bytes. */
    method Send(s: string)
      requires Valid()
      modifies this, channel
      ensures Valid()
      ensures Observed() == AfterSend(old(Observed()), Utf8(s), channel.failing)
    {
      SendBytes(Utf8(s));
    }

    /** The subscript's getter: never nil, "" for a missing header. */
    function Header(name: string): (v: string)
      reads this
      ensures Values(headers, name) == [] ==> v == ""
      ensures |Values(headers, name)| == 1 ==> v == Values(headers, name)[0]
    {
      Get(headers, name)
    }

    /** The subscript's setter; it asserts that the head is not out yet. */
    method SetHeader(name: string, value: Option<string>)
      requires Valid() && !didWriteHeader
      modifies this
      ensures Valid()
      ensures Observed() == AfterSetHeader(old(Observed()), name, value)
      ensures value.Some? ==> Header(name) == value.value
      ensures value.None? ==> Header(name) == ""
    {
      if value.Some? {
        headers := ReplaceOrAdd(headers, name, value.value);
        GetAfterSet(old(headers), name, value.value);
      } else {
        headers := Remove(headers, name);
        GetAfterRemove(old(headers), name);
      }
    }

    /** `json(_:)`, given the encoder's result: `None` when `JSONEncoder().encode` throws. */
    method Json(encoded: Option<seq<byte>>)
      requires Valid() && (encoded.Some? ==> !didWriteHeader)
      modifies this, channel
      ensures Valid()
      ensures Observed() == AfterJson(old(Observed()), encoded, channel.failing)
    {
      match encoded
      case None =>
        HandleError();
      case Some(data) =>
        SetHeader("Content-Type", Some("application/json"));
        SetHeader("Content-Length", Some(Decimal(|data|)));
        SendBytes(data);
    }
  }
}
