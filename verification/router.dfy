/**
 * The middleware dispatch pipeline of Router.swift.
 *
 * A middleware's effect on the request and the response is abstracted away:
 * what the pipeline can observe of it is which application handlers ran (their
 * labels) and how many times it called `next()`. `Handler(id, k)` is a
 * handler that does its work and then calls `next()` k times: 0 for one that
 * answers the request, 1 for one that passes it on, more for one that
 * misbehaves. `GetFilter(path, inner)` is the wrapper that `get(path, inner)`
 * registers.
 */
module Routing {

  datatype Method = GET | HEAD | POST | PUT | DELETE | OPTIONS | PATCH | Other(name: string)

  /** What the pipeline reads of an IncomingMessage: the method and the URI of its head. */
  datatype Request = Request(httpMethod: Method, uri: string)

  type Label = nat

  datatype Middleware =
    | Handler(id: Label, nextCalls: nat)
    | GetFilter(path: string, inner: Middleware)

  /** `String.hasPrefix`, character by character. */
  function HasPrefix(s: string, prefix: string): (r: bool)
    ensures r <==> prefix <= s
  {
    if prefix == [] then true
    else if s == [] then false
    else s[0] == prefix[0] && HasPrefix(s[1..], prefix[1..])
  }

  /** The guard of the `get` wrapper: a GET whose URI starts with the path. */
  function Matches(path: string, req: Request): (b: bool)
    ensures b <==> req.httpMethod == GET && path <= req.uri
  {
    req.httpMethod == GET && HasPrefix(req.uri, path)
  }

  /**
   * The labels of the handlers that run when `mw` is invoked on `req`: at
   * most one, since a wrapper either forwards to its one inner middleware or
   * runs nothing; a plain handler always runs.
   */
  function Ran(mw: Middleware, req: Request): (labels: seq<Label>)
    ensures |labels| <= 1
    ensures labels == [] ==> mw.GetFilter?
  {
    match mw
    case Handler(id, _) => [id]
    case GetFilter(path, inner) => if Matches(path, req) then Ran(inner, req) else []
  }

  /**
   * How many times `mw`, invoked on `req`, calls `next()`. A request that a
   * wrapper filters out, so that no handler runs, is passed on exactly once.
   */
  function NextCalls(mw: Middleware, req: Request): (k: nat)
    ensures Ran(mw, req) == [] ==> k == 1
  {
    match mw
    case Handler(_, k) => k
    case GetFilter(path, inner) => if Matches(path, req) then NextCalls(inner, req) else 1
  }

  /** The handlers that run when the middlewares `mws` are invoked one after the other. */
  function RanAll(mws: seq<Middleware>, req: Request): seq<Label> {
    if mws == [] then [] else RanAll(mws[..|mws| - 1], req) + Ran(mws[|mws| - 1], req)
  }

  /** The first n positions of the middleware list, in order. */
  function Positions(n: nat): seq<nat> {
    seq(n, i => i)
  }

  /** Where a dispatch stops: the number of middlewares popped, and the calls to `step` still owed when it stopped. */
  datatype Drained = Drained(popped: nat, owed: nat)

  /**
   * The pipeline as a counter machine, the reference semantics for `State.step`:
   * `owed` calls to `step` are pending and the cursor is at position `s` of the
   * snapshot. Each pending call pops one middleware, which adds the calls to
   * `next()` it makes. The machine stops when nothing is owed or the snapshot
   * is exhausted; calls still owed at that point reach the empty stack.
   */
  function Drain(snap: seq<Middleware>, req: Request, owed: nat, s: nat): (d: Drained)
    requires s <= |snap|
    ensures s <= d.popped <= |snap|
    ensures d.owed > 0 ==> d.popped == |snap|
    ensures owed == 0 ==> d == Drained(s, 0)
    decreases |snap| - s
  {
    if owed == 0 || s == |snap| then Drained(s, owed)
    else Drain(snap, req, owed - 1 + NextCalls(snap[s], req), s + 1)
  }

  /** Owing a + b calls is owing a, then b more from wherever the first a left the cursor. */
  lemma {:induction false} DrainSplit(snap: seq<Middleware>, req: Request, a: nat, b: nat, s: nat)
    requires s <= |snap|
    ensures var d := Drain(snap, req, a, s);
      Drain(snap, req, a + b, s) == if d.owed == 0 then Drain(snap, req, b, d.popped) else Drained(d.popped, d.owed + b)
    decreases |snap| - s
  {
    if a != 0 && s != |snap| {
      DrainSplit(snap, req, a - 1 + NextCalls(snap[s], req), b, s + 1);
    }
  }

  /** What one `handle` call observably does. */
  datatype Outcome = Outcome(invoked: seq<nat>, ran: seq<Label>, fallbackFired: nat)

  /** The outcome of dispatching `req` over the middleware list `mws`, started by one call to `step`. */
  function Dispatch(mws: seq<Middleware>, req: Request): (o: Outcome)
    ensures |o.invoked| <= |mws|
    ensures forall i :: 0 <= i < |o.invoked| ==> o.invoked[i] == i
    ensures o.fallbackFired <= 1
    ensures o.fallbackFired == 1 ==> |o.invoked| == |mws|
  {
    var d := Drain(mws, req, 1, 0);
    Outcome(Positions(d.popped), RanAll(mws[..d.popped], req), if d.owed > 0 then 1 else 0)
  }

  /** With no middleware registered, the fallback fires at once and nothing else runs. */
  lemma DispatchEmpty(req: Request)
    ensures Dispatch([], req) == Outcome([], [], 1)
  {
  }

  lemma {:induction false} DrainStopsAt(snap: seq<Middleware>, req: Request, s: nat, k: nat)
    requires s <= k < |snap|
    requires forall i :: s <= i < k ==> NextCalls(snap[i], req) == 1
    requires NextCalls(snap[k], req) == 0
    ensures Drain(snap, req, 1, s) == Drained(k + 1, 0)
    decreases k - s
  {
    if s < k {
      DrainStopsAt(snap, req, s + 1, k);
    }
  }

  /**
   * If every middleware before position k passes the request on and the one
   * at k does not call `next()`, exactly the middlewares 0..k run, in order,
   * and the fallback does not fire.
   */
  lemma ShortCircuit(mws: seq<Middleware>, req: Request, k: nat)
    requires k < |mws|
    requires forall i :: 0 <= i < k ==> NextCalls(mws[i], req) == 1
    requires NextCalls(mws[k], req) == 0
    ensures Dispatch(mws, req) == Outcome(Positions(k + 1), RanAll(mws[..k + 1], req), 0)
  {
    DrainStopsAt(mws, req, 0, k);
  }

  lemma {:induction false} DrainBoundedBy(snap: seq<Middleware>, req: Request, owed: nat, s: nat, k: nat)
    requires s <= k < |snap| && owed <= 1
    requires forall i :: s <= i < k ==> NextCalls(snap[i], req) <= 1
    requires NextCalls(snap[k], req) == 0
    ensures Drain(snap, req, owed, s).popped <= k + 1 && Drain(snap, req, owed, s).owed == 0
    decreases k - s
  {
    if owed == 1 && s < k {
      DrainBoundedBy(snap, req, NextCalls(snap[s], req), s + 1, k);
    }
  }

  /**
   * When no middleware before position k calls `next()` more than once and the
   * one at k does not call it, no middleware after k runs and the fallback does
   * not fire, whether or not position k is reached.
   */
  lemma NothingRunsAfterStop(mws: seq<Middleware>, req: Request, k: nat)
    requires k < |mws|
    requires forall i :: 0 <= i < k ==> NextCalls(mws[i], req) <= 1
    requires NextCalls(mws[k], req) == 0
    ensures |Dispatch(mws, req).invoked| <= k + 1
    ensures Dispatch(mws, req).fallbackFired == 0
  {
    DrainBoundedBy(mws, req, 1, 0, k);
  }

  lemma {:induction false} DrainExhausts(snap: seq<Middleware>, req: Request, owed: nat, s: nat)
    requires s <= |snap| && owed >= 1
    requires forall i :: s <= i < |snap| ==> NextCalls(snap[i], req) >= 1
    ensures Drain(snap, req, owed, s).popped == |snap| && Drain(snap, req, owed, s).owed >= 1
    decreases |snap| - s
  {
    if s < |snap| {
      DrainExhausts(snap, req, owed - 1 + NextCalls(snap[s], req), s + 1);
    }
  }

  /** If every middleware calls `next()`, all of them run in order and the fallback fires exactly once. */
  lemma AllPassOn(mws: seq<Middleware>, req: Request)
    requires forall i :: 0 <= i < |mws| ==> NextCalls(mws[i], req) >= 1
    ensures Dispatch(mws, req) == Outcome(Positions(|mws|), RanAll(mws, req), 1)
  {
    DrainExhausts(mws, req, 1, 0);
    assert mws[..|mws|] == mws;
  }

  /**
   * The `get(path, mw)` wrapper runs `mw` exactly when the method is GET and
   * the URI starts with `path`; otherwise it runs nothing and calls `next()` once.
   */
  lemma GetFilterRunsInnerIff(path: string, inner: Middleware, req: Request)
    ensures req.httpMethod == GET && path <= req.uri ==>
      Ran(GetFilter(path, inner), req) == Ran(inner, req) && NextCalls(GetFilter(path, inner), req) == NextCalls(inner, req)
    ensures !(req.httpMethod == GET && path <= req.uri) ==>
      Ran(GetFilter(path, inner), req) == [] && NextCalls(GetFilter(path, inner), req) == 1
  {
  }

  /** With the default path "", the wrapper accepts every GET request and nothing else. */
  lemma DefaultPathMatchesEveryGet(req: Request)
    ensures Matches("", req) <==> req.httpMethod == GET
  {
  }

  /** Router.swift's `Router`: the ordered middleware list. */
  class Router {
    var middleware: seq<Middleware>

    constructor ()
      ensures middleware == []
    {
      middleware := [];
    }

    /** `use(_:)`: appends the arguments, in argument order, after the earlier entries. */
    method Use(mws: seq<Middleware>)
      modifies this
      ensures middleware == old(middleware) + mws
    {
      middleware := middleware + mws;
    }

    /** `get(_:middleware:)`: registers the GET/prefix wrapper around `mw`. */
    method Get(path: string, mw: Middleware)
      modifies this
      ensures middleware == old(middleware) + [GetFilter(path, mw)]
    {
      Use([GetFilter(path, mw)]);
    }

    /**
     * `handle(request:response:next:)`: snapshots the list into a fresh cursor
     * and takes the first step. The cursor's fallback stands for `upperNext`.
     */
    method Handle(req: Request) returns (st: State)
      ensures fresh(st) && st.Valid()
      ensures st.snapshot == middleware && st.request == req
      ensures var o := Dispatch(middleware, req);
        st.invoked == o.invoked && st.ran == o.ran && st.fired == o.fallbackFired
    {
      st := new State(middleware, req);
      st.Step();
    }
  }

  /**
   * The cursor `State` nested in `handle`: a slice of the snapshot (the
   * snapshot and the slice's start index) and the optional fallback `next`,
   * plus what has been observed so far: the positions popped, the labels of
   * the handlers that ran, and how often the fallback fired.
   */
  class State {
    const snapshot: seq<Middleware>
    const request: Request
    var start: nat
    var next: bool
    var invoked: seq<nat>
    var ran: seq<Label>
    var fired: nat

    /** The cursor invariant, while the handlers `pending` of the middleware last popped have yet to run. */
    ghost predicate Inv(pending: seq<Label>)
      reads this
    {
      && start <= |snapshot|
      && invoked == Positions(start)
      && ran + pending == RanAll(snapshot[..start], request)
      && fired == (if next then 0 else 1)
      && (!next ==> start == |snapshot|)
    }

    ghost predicate Valid()
      reads this
    {
      Inv([])
    }

    constructor (stack: seq<Middleware>, request: Request)
      ensures Valid() && next
      ensures snapshot == stack && this.request == request && start == 0
    {
      snapshot := stack;
      this.request := request;
      start := 0;
      next := true;
      invoked := [];
      ran := [];
      fired := 0;
    }

    /**
     * `step`: pops the first middleware and invokes it with `step` as its
     * `next`; on an empty slice, fires the fallback if it is still set and
     * clears it. Its effect is that of one owed call in the counter machine.
     */
    method Step()
      requires Valid()
      modifies this
      ensures Valid()
      ensures var d := Drain(snapshot, request, 1, old(start));
        start == d.popped && next == (old(next) && d.owed == 0)
      decreases |snapshot| - start, 0
    {
      if start < |snapshot| {
        var mw := snapshot[start];
        assert Drain(snapshot, request, 1, start) == Drain(snapshot, request, NextCalls(mw, request), start + 1);
        assert snapshot[..start + 1] == snapshot[..start] + [mw];
        assert Positions(start + 1) == Positions(start) + [start];
        assert RanAll(snapshot[..start + 1], request) == RanAll(snapshot[..start], request) + Ran(mw, request);
        invoked := invoked + [start];
        start := start + 1;
        Invoke(mw);
      } else {
        assert Drain(snapshot, request, 1, start) == Drained(start, 1);
        if next {
          fired := fired + 1;
        }
        next := false;
      }
    }

    /** Runs the middleware just popped, with this cursor's `step` as `next`. */
    method Invoke(mw: Middleware)
      requires Inv(Ran(mw, request))
      modifies this
      ensures Valid()
      ensures var d := Drain(snapshot, request, NextCalls(mw, request), old(start));
        start == d.popped && next == (old(next) && d.owed == 0)
      decreases |snapshot| - start, 1, mw
    {
      match mw
      case Handler(id, k) =>
        ran := ran + [id];
        var s0, next0 := start, next;
        for i := 0 to k
          invariant Valid()
          invariant var d := Drain(snapshot, request, i, s0);
            start == d.popped && next == (next0 && d.owed == 0)
        {
          DrainSplit(snapshot, request, i, 1, s0);
          Step();
        }
      case GetFilter(path, inner) =>
        if Matches(path, request) {
          Invoke(inner);
        } else {
          Step();
        }
    }
  }

  /**
   * A registration made while a dispatch is in flight does not reach it: the
   * cursor walks the snapshot taken when it was made. `handle` itself steps
   * right after building the cursor; the `use` placed between the two here
   * stands for one made by a running middleware, or by another caller of the
   * same router, before the dispatch reaches the end of its snapshot.
   */
  method LateRegistration(r: Router, req: Request, extra: seq<Middleware>) returns (st: State)
    modifies r
    ensures r.middleware == old(r.middleware) + extra
    ensures var o := Dispatch(old(r.middleware), req);
      st.invoked == o.invoked && st.ran == o.ran && st.fired == o.fallbackFired
  {
    st := new State(r.middleware, req);
    r.Use(extra);
    st.Step();
  }

  /** A stray call to `next` after the fallback has fired changes nothing: the slice is empty and the fallback gone. */
  method StrayNext(st: State)
    requires st.Valid() && st.fired == 1
    modifies st
    ensures st.Valid()
    ensures st.invoked == old(st.invoked) && st.ran == old(st.ran) && st.fired == 1
  {
    assert st.ran + [] == st.ran;
    st.Step();
    assert st.ran + [] == st.ran;
  }
}
