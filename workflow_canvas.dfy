/** The animated workflow canvas (src/components/WorkflowCanvas/WorkflowCanvas.jsx):
    six nodes lit one after another by an interval ticker, each finished
    node marked complete and shown with a data particle that a delayed
    cleanup removes again. The interval and the timeouts are the methods
    `Tick` and `FireCleanup`. */
module WorkflowCanvas {
  import opened Ranges

  /** `workflow.length`. */
  const NodeCount: int := 6

  /** The node lit after a tick that saw `prev`: the next one, or the same
      once the last node is lit. */
  function NextActive(prev: int): int
  {
    if prev < NodeCount - 1 then prev + 1 else prev
  }

  /** The node lit after `n` ticks from `start`. */
  function ActiveAfter(start: int, n: nat): int
    decreases n
  {
    if n == 0 then start else ActiveAfter(NextActive(start), n - 1)
  }

  /** From the unlit start, tick `n` lights node `n - 1`, and the ticker
      stops at the last node. */
  lemma {:induction false} ActiveAfterFromStart(start: int, n: nat)
    requires -1 <= start <= NodeCount - 1
    ensures ActiveAfter(start, n) == if start + n < NodeCount - 1 then start + n else NodeCount - 1
    decreases n
  {
    if n > 0 {
      ActiveAfterFromStart(NextActive(start), n - 1);
    }
  }

  /** `flows.filter(f => f !== x)`. */
  function RemoveAll(s: seq<int>, x: int): (r: seq<int>)
    ensures x !in r
    ensures forall y :: y in r <==> y in s && y != x
    ensures |r| <= |s|
  {
    if s == [] then []
    else if s[0] == x then RemoveAll(s[1..], x)
    else [s[0]] + RemoveAll(s[1..], x)
  }

  /** The filter keeps every other value as often as it was there, in
      the same order. */
  lemma {:induction false} RemoveAllKeepsOthers(s: seq<int>, x: int)
    ensures multiset(RemoveAll(s, x)) == multiset(s)[x := 0]
    decreases |s|
  {
    if s != [] {
      RemoveAllKeepsOthers(s[1..], x);
      assert s == [s[0]] + s[1..];
      assert multiset(s) == multiset([s[0]]) + multiset(s[1..]);
    }
  }

  /** Removing a value that is not there changes nothing. */
  lemma {:induction false} RemoveAllAbsent(s: seq<int>, x: int)
    requires x !in s
    ensures RemoveAll(s, x) == s
    decreases |s|
  {
    if s != [] {
      RemoveAllAbsent(s[1..], x);
      assert s == [s[0]] + s[1..];
    }
  }

  /** The `WorkflowCanvas` component. */
  class Canvas {
    const autoPlay: bool
    var activeNode: int
    var completedNodes: seq<int>
    var flowingData: seq<int>
    /** The values whose 800 ms cleanup is scheduled and has not run, in
        the order they were scheduled. */
    var pending: seq<int>

    /** Nodes before the lit one are complete, in order; particles sit
        only on complete nodes. */
    ghost predicate Valid()
      reads this
    {
      && -1 <= activeNode <= NodeCount - 1
      && completedNodes == Upto(activeNode)
      && (forall i :: 0 <= i < |flowingData| ==> 0 <= flowingData[i] < activeNode)
    }

    constructor (autoPlay: bool)
      ensures Valid() && this.autoPlay == autoPlay
      ensures activeNode == -1 && completedNodes == [] && flowingData == [] && pending == []
    {
      this.autoPlay := autoPlay;
      activeNode := -1;
      completedNodes := [];
      flowingData := [];
      pending := [];
    }

    /** One firing of the 1500 ms interval; with `autoPlay` off no interval
        exists and nothing happens. */
    method Tick()
      requires Valid()
      modifies this
      ensures Valid()
      ensures !autoPlay || old(activeNode) == NodeCount - 1 ==>
                activeNode == old(activeNode) && completedNodes == old(completedNodes)
                && flowingData == old(flowingData) && pending == old(pending)
      ensures autoPlay ==> activeNode == NextActive(old(activeNode))
      ensures autoPlay && 0 <= old(activeNode) < NodeCount - 1 ==>
                completedNodes == old(completedNodes) + [old(activeNode)]
                && flowingData == old(flowingData) + [old(activeNode)]
                && pending == old(pending) + [old(activeNode)]
      ensures autoPlay && old(activeNode) == -1 ==>
                completedNodes == [] && flowingData == old(flowingData) && pending == old(pending)
    {
      if !autoPlay {
        return;
      }
      var prev := activeNode;
      if prev < NodeCount - 1 {
        if prev >= 0 {
          UptoSnoc(prev);
          completedNodes := completedNodes + [prev];
          flowingData := flowingData + [prev];
          pending := pending + [prev];
        }
        activeNode := prev + 1;
      }
    }

    /** The oldest scheduled cleanup runs: every copy of its value leaves
        `flowingData`. */
    method FireCleanup()
      requires Valid() && pending != []
      modifies this
      ensures Valid()
      ensures flowingData == RemoveAll(old(flowingData), old(pending)[0])
      ensures pending == old(pending)[1..]
      ensures activeNode == old(activeNode) && completedNodes == old(completedNodes)
    {
      var f := pending[0];
      flowingData := RemoveAll(flowingData, f);
      pending := pending[1..];
      forall i | 0 <= i < |flowingData|
        ensures 0 <= flowingData[i] < activeNode
      {
        assert flowingData[i] in old(flowingData);
      }
    }

    /** `resetWorkflow`; cleanups already scheduled still run later. */
    method Reset()
      modifies this
      ensures Valid()
      ensures activeNode == -1 && completedNodes == [] && flowingData == []
      ensures pending == old(pending)
    {
      activeNode := -1;
      completedNodes := [];
      flowingData := [];
    }

    /** `completedNodes.includes(index)`. */
    function IsCompleted(index: int): (b: bool)
      reads this
      requires Valid()
      ensures b <==> 0 <= index < activeNode
      ensures index == NodeCount - 1 ==> !b
    {
      assert 0 <= index < activeNode ==> completedNodes[index] == index;
      index in completedNodes
    }
  }
}
