/**
 * The parts of Express.swift that fix what a request observably gets when no
 * middleware answers it, and the request scenarios that exercise the
 * pipeline and the response together.
 */
module Express {
  import opened Encoding
  import opened Headers
  import opened Routing
  import opened Response

  /** `HTTPResponseStatus.notFound`. */
  const NotFound: nat := 404

  const NotFoundMessage: string := "No middleware handled the request!"

  /** The final handler `HTTPHandler` passes to `handle`: status 404 and a fixed plain-text body. */
  method FinalHandler(res: ServerResponse)
    requires res.Valid()
    modifies res, res.channel
    ensures res.Valid()
    ensures res.Observed() == AfterSend(old(res.Observed()).(status := NotFound), Utf8(NotFoundMessage), res.channel.failing)
  {
    res.status := NotFound;
    assert res.Observed() == old(res.Observed()).(status := NotFound);
    res.Send(NotFoundMessage);
  }

  /**
   * On a fresh response whose writes all succeed, the final handler writes a
   * 404 head, the message's bytes as the one body, the end, and closes.
   */
  lemma FinalHandlerOnFreshResponse()
    ensures AfterSend(Fresh().(status := NotFound), Utf8(NotFoundMessage), {}).log ==
      [Write(Head(Http11, NotFound, [])), Write(Body(Utf8(NotFoundMessage))), Write(End), Close]
  {
    SendOnFreshResponse(NotFound, [], NotFoundMessage);
  }

  /** The message is ASCII, so its body is 34 bytes, one per character. */
  lemma NotFoundBodyLength()
    ensures |Utf8(NotFoundMessage)| == |NotFoundMessage| == 34
  {
    assert IsAscii(NotFoundMessage);
    Utf8OfAscii(NotFoundMessage);
  }

  /** A handler that passes the request on, then one that answers it: both run, in order, and the fallback does not fire. */
  lemma PassOnThenAnswer()
    ensures Dispatch([Handler(1, 1), Handler(2, 0)], Request(GET, "/")) == Outcome([0, 1], [1, 2], 0)
  {
    ShortCircuit([Handler(1, 1), Handler(2, 0)], Request(GET, "/"), 1);
  }

  /** With nothing registered, any request reaches the fallback. */
  lemma NothingRegistered(uri: string)
    ensures Dispatch([], Request(GET, uri)).fallbackFired == 1
  {
  }

  /** `get("/api", h)` does not run `h` for GET /other: the request falls through to the fallback. */
  lemma GetOnOtherPath()
    ensures Dispatch([GetFilter("/api", Handler(7, 0))], Request(GET, "/other")) == Outcome([0], [], 1)
  {
  }

  /**
   * A handler that calls `next()` twice when nothing follows it: the first
   * call fires the fallback and clears it, so the second call finds the
   * slice empty and the fallback gone, and the fallback fires once.
   */
  lemma DoubleNextFiresFallbackOnce()
    ensures Dispatch([Handler(1, 2)], Request(GET, "/")) == Outcome([0], [1], 1)
  {
  }
}
