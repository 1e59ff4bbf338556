/**
 * The two output readers of one execution sharing a cap, and the flag that keeps executions
 * from overlapping.
 */
module SandboxCapture {

  type Bytes = seq<bv8>

  datatype Stream = Stdout | Stderr

  /** A non-empty chunk arriving on one of the streams. */
  datatype Chunk = Chunk(stream: Stream, data: Bytes)

  datatype Captured = Captured(stdout: Bytes, stderr: Bytes, truncated: bool, stopped: set<Stream>)

  const NOTHING := Captured([], [], false, {})

  function Total(c: Captured): nat { |c.stdout| + |c.stderr| }

  function Extend(c: Captured, s: Stream, data: Bytes): Captured {
    if s.Stdout? then c.(stdout := c.stdout + data) else c.(stderr := c.stderr + data)
  }

  function Cap(c: Captured, s: Stream): Captured {
    c.(truncated := true, stopped := c.stopped + {s})
  }

  /** One iteration of the reader that owns the stream; a stopped reader reads no more. */
  function Feed(limit: nat, c: Captured, k: Chunk): Captured {
    if k.stream in c.stopped then c
    else if Total(c) >= limit then Cap(c, k.stream)
    else
      var remaining := limit - Total(c);
      var e := Extend(c, k.stream, if |k.data| <= remaining then k.data else k.data[..remaining]);
      if |k.data| > remaining || Total(e) >= limit then Cap(e, k.stream) else e
  }

  ghost function FeedAll(limit: nat, ks: seq<Chunk>): Captured {
    if ks == [] then NOTHING else Feed(limit, FeedAll(limit, ks[..|ks| - 1]), ks[|ks| - 1])
  }

  /** Everything a stream produced. */
  ghost function Produced(ks: seq<Chunk>, s: Stream): Bytes {
    if ks == [] then []
    else
      var last := ks[|ks| - 1];
      Produced(ks[..|ks| - 1], s) + if last.stream == s then last.data else []
  }

  ghost predicate NonEmpty(ks: seq<Chunk>) {
    forall i :: 0 <= i < |ks| ==> ks[i].data != []
  }

  /** The complete account of a capture: which bytes, how many, and when it counts as truncated. */
  ghost predicate Faithful(limit: nat, ks: seq<Chunk>, c: Captured) {
    var all := |Produced(ks, Stdout)| + |Produced(ks, Stderr)|;
    && c.stdout <= Produced(ks, Stdout) && c.stderr <= Produced(ks, Stderr)
    && Total(c) == (if all <= limit then all else limit)
    && (c.truncated <==> all >= limit)
    && (!c.truncated ==> c.stdout == Produced(ks, Stdout) && c.stderr == Produced(ks, Stderr) && c.stopped == {})
  }

  lemma FeedKeeps(limit: nat, ks: seq<Chunk>, c: Captured, k: Chunk)
    requires limit > 0 && Faithful(limit, ks, c) && k.data != []
    ensures Faithful(limit, ks + [k], Feed(limit, c, k))
  {
    assert (ks + [k])[..|ks|] == ks;
    var out, err := Produced(ks, Stdout), Produced(ks, Stderr);
    assert Produced(ks + [k], Stdout) == out + if k.stream == Stdout then k.data else [];
    assert Produced(ks + [k], Stderr) == err + if k.stream == Stderr then k.data else [];
  }

  /** However the chunks of the two streams interleave, the capture is faithful. */
  lemma {:induction false} CaptureIsFaithful(limit: nat, ks: seq<Chunk>)
    requires limit > 0 && NonEmpty(ks)
    ensures Faithful(limit, ks, FeedAll(limit, ks))
  {
    if ks != [] {
      var front := ks[..|ks| - 1];
      CaptureIsFaithful(limit, front);
      FeedKeeps(limit, front, FeedAll(limit, front), ks[|ks| - 1]);
      assert front + [ks[|ks| - 1]] == ks;
    }
  }

  /** The buffers as the readers update them. */
  class Capture {
    const limit: nat
    var stdout: Bytes
    var stderr: Bytes
    var truncated: bool
    ghost var stopped: set<Stream>

    constructor (limit: nat)
      ensures this.limit == limit && Now() == NOTHING
    {
      this.limit := limit;
      stdout, stderr, truncated := [], [], false;
      stopped := {};
    }

    ghost function Now(): Captured
      reads this
    {
      Captured(stdout, stderr, truncated, stopped)
    }

    method Read(stream: Stream, chunk: Bytes) returns (stop: bool)
      requires stream !in stopped && chunk != []
      modifies this
      ensures Now() == Feed(limit, old(Now()), Chunk(stream, chunk))
      ensures stop == (stream in stopped)
    {
      if limit <= |stdout| + |stderr| {
        truncated := true;
        stopped := stopped + {stream};
        return true;
      }
      var remaining := limit - |stdout| - |stderr|;
      var taken := if |chunk| <= remaining then chunk else chunk[..remaining];
      match stream {
        case Stdout => stdout := stdout + taken;
        case Stderr => stderr := stderr + taken;
      }
      if |chunk| > remaining || |stdout| + |stderr| >= limit {
        truncated := true;
        stopped := stopped + {stream};
        return true;
      }
      return false;
    }
  }

  // ----- One execution at a time -----

  datatype Handler = Arrived | Executing | CleaningUp | Busy | Finished

  /**
   * The flag, the connection handlers, and the execution tasks not yet done.  A killed process may
   * outlive its task: after a timeout or a cancellation the task waits one second for it at most.
   */
  datatype Runner = Runner(active: bool, handlers: seq<Handler>, alive: set<nat>)

  datatype Step =
    | Connect
    | Begin(i: nat)            // the check of the flag and its setting have no await between them
    | ExecutionEnds(i: nat)    // on its own or because it was cancelled
    | Clean(i: nat)            // result, disconnect or error: enter the cleanup
    | Release(i: nat)          // both tasks gathered: clear the flag

  function Next(r: Runner, s: Step): Runner {
    match s
    case Connect => r.(handlers := r.handlers + [Arrived])
    case Begin(i) =>
      if i < |r.handlers| && r.handlers[i].Arrived? then
        if r.active then r.(handlers := r.handlers[i := Busy])
        else Runner(true, r.handlers[i := Executing], r.alive + {i})
      else r
    case ExecutionEnds(i) => r.(alive := r.alive - {i})
    case Clean(i) =>
      if i < |r.handlers| && r.handlers[i].Executing? then r.(handlers := r.handlers[i := CleaningUp]) else r
    case Release(i) =>
      if i < |r.handlers| && r.handlers[i].CleaningUp? && i !in r.alive
      then r.(active := false, handlers := r.handlers[i := Finished]) else r
  }

  ghost function Run(steps: seq<Step>): Runner {
    if steps == [] then Runner(false, [], {}) else Next(Run(steps[..|steps| - 1]), steps[|steps| - 1])
  }

  ghost predicate Inside(r: Runner, i: nat) {
    i < |r.handlers| && (r.handlers[i].Executing? || r.handlers[i].CleaningUp?)
  }

  ghost predicate Exclusive(r: Runner) {
    && (forall i, j :: Inside(r, i) && Inside(r, j) ==> i == j)
    && (forall i :: i in r.alive ==> Inside(r, i))
    && (r.active <==> exists i :: Inside(r, i))
  }

  lemma NextKeepsExclusive(r: Runner, s: Step)
    requires Exclusive(r)
    ensures Exclusive(Next(r, s))
  {
    var n := Next(r, s);
    match s
    case Begin(i) =>
      if i < |r.handlers| && r.handlers[i].Arrived? && !r.active {
        assert Inside(n, i);
        assert forall j :: Inside(n, j) && j != i ==> Inside(r, j);
      } else {
        assert forall j :: Inside(n, j) <==> Inside(r, j);
      }
    case Release(i) =>
      if i < |r.handlers| && r.handlers[i].CleaningUp? && i !in r.alive {
        assert Inside(r, i);
        assert forall j :: Inside(n, j) ==> Inside(r, j) && j != i;
      }
    case _ =>
      assert forall j :: Inside(n, j) <==> Inside(r, j);
  }

  /** In every run at most one execution is alive, and the flag is set exactly while a handler is inside. */
  lemma {:induction false} AtMostOneExecution(steps: seq<Step>, i: nat, j: nat)
    ensures Exclusive(Run(steps))
    ensures i in Run(steps).alive && j in Run(steps).alive ==> i == j
  {
    if steps != [] {
      AtMostOneExecution(steps[..|steps| - 1], i, j);
      NextKeepsExclusive(Run(steps[..|steps| - 1]), steps[|steps| - 1]);
    }
  }

  ghost predicate Idle(r: Runner) {
    forall i :: !Inside(r, i)
  }

  /** An arriving request executes when no handler is inside, and is turned away when one is. */
  lemma ArrivalIsAnswered(r: Runner, i: nat)
    requires Exclusive(r) && i < |r.handlers| && r.handlers[i].Arrived?
    ensures Idle(r) ==> Next(r, Begin(i)) == Runner(true, r.handlers[i := Executing], r.alive + {i})
    ensures !Idle(r) ==> Next(r, Begin(i)) == r.(handlers := r.handlers[i := Busy])
  {
  }

  /** A handler that ends, is cleaned up and released leaves the runner idle, ready for the next request. */
  lemma ReleaseFreesTheRunner(r: Runner, i: nat)
    requires Exclusive(r) && i < |r.handlers| && r.handlers[i].Executing?
    ensures var n := Next(Next(Next(r, ExecutionEnds(i)), Clean(i)), Release(i));
      Exclusive(n) && Idle(n) && !n.active && n.handlers == r.handlers[i := Finished] && n.alive == {}
  {
    var a := Next(r, ExecutionEnds(i));
    var b := Next(a, Clean(i));
    NextKeepsExclusive(r, ExecutionEnds(i));
    NextKeepsExclusive(a, Clean(i));
    NextKeepsExclusive(b, Release(i));
    var n := Next(b, Release(i));
    assert Inside(b, i);
    assert forall j :: Inside(n, j) ==> Inside(b, j) && j != i;
    assert n.handlers == r.handlers[i := Finished];
    assert forall j :: j in n.alive ==> Inside(n, j);
  }
}
