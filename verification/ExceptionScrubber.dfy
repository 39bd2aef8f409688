/** Releasing an exception graph: a walk that destroys the links it is following. */
module ExceptionScrubber {

  /** A traceback's frames are cleared at most once each; two exceptions may hold one traceback. */
  class Traceback {
    var framesCleared: bool

    constructor ()
      ensures !framesCleared
    {
      framesCleared := false;
    }

    /** `traceback.clear_frames`. */
    method ClearFrames()
      modifies this
      ensures framesCleared
    {
      framesCleared := true;
    }
  }

  class ExceptionNode {
    var cause: ExceptionNode?
    var context: ExceptionNode?
    var trace: Traceback?

    constructor (cause: ExceptionNode?, context: ExceptionNode?, trace: Traceback?)
      ensures this.cause == cause && this.context == context && this.trace == trace
    {
      this.cause, this.context, this.trace := cause, context, trace;
    }
  }

  /** The cause and context links of one exception. */
  function Links(e: ExceptionNode): seq<ExceptionNode>
    reads e
  {
    (if e.cause == null then [] else [e.cause as ExceptionNode])
    + (if e.context == null then [] else [e.context as ExceptionNode])
  }

  ghost predicate Closed(graph: set<ExceptionNode>)
    reads graph
  {
    forall e, x :: e in graph && x in Links(e) ==> x in graph
  }

  /** The shape of a graph at one moment. */
  type LinkMap = map<ExceptionNode, seq<ExceptionNode>>

  ghost function LinksOf(graph: set<ExceptionNode>): LinkMap
    reads graph
  {
    map e | e in graph :: Links(e)
  }

  ghost function TracesOf(graph: set<ExceptionNode>): map<ExceptionNode, Traceback?>
    reads graph
  {
    map e | e in graph :: e.trace
  }

  /** What at most `hops` links lead to. */
  ghost function Within(links: LinkMap, from: ExceptionNode, hops: nat): set<ExceptionNode> {
    if hops == 0 then {from}
    else
      var nearer := Within(links, from, hops - 1);
      nearer + set e, x | e in nearer && e in links && x in links[e] :: x
  }

  ghost predicate Reachable(links: LinkMap, from: ExceptionNode, e: ExceptionNode) {
    exists hops: nat :: e in Within(links, from, hops)
  }

  lemma ReachableExtends(links: LinkMap, from: ExceptionNode, e: ExceptionNode, x: ExceptionNode)
    requires Reachable(links, from, e) && e in links && x in links[e]
    ensures Reachable(links, from, x)
  {
    var hops: nat :| e in Within(links, from, hops);
    assert x in Within(links, from, hops + 1);
  }

  /** A set closed under the links holds everything reachable from its members. */
  lemma {:induction false} ClosedHoldsReach(
    links: LinkMap, closed: set<ExceptionNode>, from: ExceptionNode, hops: nat)
    requires from in closed
    requires forall e, x :: e in closed && e in links && x in links[e] ==> x in closed
    ensures Within(links, from, hops) <= closed
    decreases hops
  {
    if hops > 0 {
      ClosedHoldsReach(links, closed, from, hops - 1);
    }
  }

  /** The tracebacks held anywhere in the graph. */
  ghost function AllTraces(graph: set<ExceptionNode>): set<Traceback>
    reads graph
  {
    set e | e in graph && e.trace != null :: e.trace as Traceback
  }

  /** Some reachable exception held this traceback. */
  ghost predicate Traced(
    links: LinkMap, traces: map<ExceptionNode, Traceback?>, from: ExceptionNode, t: Traceback)
  {
    exists e :: e in traces && traces[e] == t && Reachable(links, from, e)
  }

  predicate Scrubbed(e: ExceptionNode)
    reads e
  {
    e.cause == null && e.context == null && e.trace == null
  }

  /** Every original link of a visited exception leads to a visited or a pending one. */
  ghost predicate Frontier(links: LinkMap, seen: set<ExceptionNode>, pending: seq<ExceptionNode>) {
    forall e, x :: e in seen && e in links && x in links[e] ==> x in seen || x in pending
  }

  ghost predicate AllReachable(
    links: LinkMap, from: ExceptionNode, seen: set<ExceptionNode>, pending: seq<ExceptionNode>)
  {
    && from in links
    && (from in seen || from in pending)
    && (forall e :: e in seen ==> e in links && Reachable(links, from, e))
    && (forall e :: e in pending ==> e in links && Reachable(links, from, e))
  }

  ghost predicate ClosedLinks(links: LinkMap) {
    forall e, x :: e in links && x in links[e] ==> x in links
  }

  /** Popping an exception that was already visited keeps the walk on course. */
  lemma SkipKeeps(
    links: LinkMap, from: ExceptionNode, seen: set<ExceptionNode>, rest: seq<ExceptionNode>, current: ExceptionNode)
    requires Frontier(links, seen, rest + [current]) && AllReachable(links, from, seen, rest + [current])
    requires current in seen
    ensures Frontier(links, seen, rest) && AllReachable(links, from, seen, rest)
  {
  }

  /** So does visiting a new one and adding its links, read before they are destroyed. */
  lemma VisitKeeps(
    links: LinkMap, from: ExceptionNode, seen: set<ExceptionNode>, rest: seq<ExceptionNode>, current: ExceptionNode)
    requires ClosedLinks(links)
    requires Frontier(links, seen, rest + [current]) && AllReachable(links, from, seen, rest + [current])
    ensures current in links
    ensures Frontier(links, seen + {current}, rest + links[current])
    ensures AllReachable(links, from, seen + {current}, rest + links[current])
  {
    hide Reachable;
    assert current in rest + [current];
    forall x | x in links[current]
      ensures x in links && Reachable(links, from, x)
    {
      ReachableExtends(links, from, current, x);
    }
  }

  lemma FinishedHoldsReach(links: LinkMap, from: ExceptionNode, seen: set<ExceptionNode>, e: ExceptionNode)
    requires Frontier(links, seen, []) && AllReachable(links, from, seen, [])
    ensures e in seen <==> Reachable(links, from, e)
  {
    if Reachable(links, from, e) {
      var hops: nat :| e in Within(links, from, hops);
      ClosedHoldsReach(links, seen, from, hops);
    }
  }

  /** Clear the frames of one exception's traceback, then drop its traceback and both links. */
  method Scrub(current: ExceptionNode)
    modifies current, current.trace
    ensures Scrubbed(current)
    ensures old(current.trace) != null ==> old(current.trace).framesCleared
  {
    var captured := current.trace;
    if captured != null {
      captured.ClearFrames();
    }
    current.trace := null;
    current.cause := null;
    current.context := null;
  }

  /**
   Terminates on every finite graph. Afterwards exactly the exceptions that were reachable from
   `error` through the original links are scrubbed and the frames of their tracebacks cleared,
   while every other exception keeps its links and its traceback, and every other traceback its frames.
   */
  method DiscardExceptionGraph(error: ExceptionNode, ghost graph: set<ExceptionNode>)
    requires error in graph && Closed(graph)
    modifies graph, AllTraces(graph)
    ensures var links, traces := old(LinksOf(graph)), old(TracesOf(graph));
            && (forall e :: e in graph ==>
                  if Reachable(links, error, e) then
                    Scrubbed(e) && (traces[e] != null ==> traces[e].framesCleared)
                  else
                    e.cause == old(e.cause) && e.context == old(e.context) && e.trace == old(e.trace))
            && (forall t :: t in old(AllTraces(graph)) && !Traced(links, traces, error, t)
                  ==> t.framesCleared == old(t.framesCleared))
  {
    hide Reachable, AllReachable, Frontier, ClosedLinks;
    ghost var links, traces := LinksOf(graph), TracesOf(graph);
    var pending := [error];
    var seen: set<ExceptionNode> := {};
    StartOnCourse(graph, error);
    while pending != []
      invariant seen <= graph
      invariant Frontier(links, seen, pending) && AllReachable(links, error, seen, pending)
      invariant forall e :: e in seen ==> Scrubbed(e)
      invariant forall e :: e in seen && traces[e] != null ==> traces[e].framesCleared
      invariant forall e :: e in graph - seen ==>
                  e.cause == old(e.cause) && e.context == old(e.context) && e.trace == old(e.trace)
      invariant forall t :: t in old(AllTraces(graph)) && !HeldBy(traces, seen, t)
                            ==> t.framesCleared == old(t.framesCleared)
      decreases graph - seen, |pending|
    {
      var current := pending[|pending| - 1];
      ghost var rest := pending[..|pending| - 1];
      assert pending == rest + [current];
      pending := pending[..|pending| - 1];
      if current in seen {
        SkipKeeps(links, error, seen, rest, current);
        continue;
      }
      VisitKeeps(links, error, seen, rest, current);
      var linked := Links(current);
      assert linked == links[current];
      pending := pending + linked;
      Scrub(current);
      seen := seen + {current};
    }
    forall e
      ensures e in seen <==> Reachable(links, error, e)
    {
      FinishedHoldsReach(links, error, seen, e);
    }
  }

  lemma StartOnCourse(graph: set<ExceptionNode>, error: ExceptionNode)
    requires error in graph && Closed(graph)
    ensures ClosedLinks(LinksOf(graph))
    ensures Frontier(LinksOf(graph), {}, [error]) && AllReachable(LinksOf(graph), error, {}, [error])
  {
    assert error in Within(LinksOf(graph), error, 0);
  }

  /** Some visited exception held this traceback. */
  ghost predicate HeldBy(traces: map<ExceptionNode, Traceback?>, seen: set<ExceptionNode>, t: Traceback) {
    exists e :: e in seen && e in traces && traces[e] == t
  }
}
