/** When frames are delivered: each delivery has its cause, and nothing waits past one. */
module FrameTiming {
  import opened Options
  import opened FrameBatch

  /** When each of the frames among the first `n` inputs arrived. */
  function Times(inputs: seq<(Input, nat)>, n: nat): seq<nat>
    requires n <= |inputs|
  {
    if n == 0 then []
    else Times(inputs, n - 1) + (if Frame(inputs[n - 1].0) == [] then [] else [inputs[n - 1].1])
  }

  lemma {:induction false} OneTimePerFrame(inputs: seq<(Input, nat)>, n: nat)
    requires n <= |inputs|
    ensures |Times(inputs, n)| == |Received(inputs[..n])|
  {
    if n > 0 {
      OneTimePerFrame(inputs, n - 1);
      ReceivedSnoc(inputs, n - 1);
    }
  }

  // ---- One turn ----

  /** The buffer falls due a window after its oldest frame arrived. */
  predicate DueByOldest(s: Loop, times: seq<nat>) {
    && |s.buffered| <= |times|
    && s.deadline == if s.buffered == [] then None else Some(times[|times| - |s.buffered|] + 8)
  }

  lemma FlushedDue(s: Loop, times: seq<nat>)
    requires DueByOldest(s, times)
    ensures DueByOldest(Flushed(s), times)
  {
  }

  lemma PushedDue(s: Loop, times: seq<nat>, frame: Bytes, now: nat)
    requires DueByOldest(s, times)
    ensures DueByOldest(Pushed(s, frame, now), times + [now])
  {
  }

  lemma TurnDue(s: Loop, i: Input, now: nat, times: seq<nat>)
    requires DueByOldest(s, times)
    ensures DueByOldest(Turn(s, i, now), times + (if Frame(i) == [] then [] else [now]))
  {
    FlushedDue(s, times);
    if i.Incoming? && i.frame.Some? {
      var f := i.frame.value;
      PushedDue(Roomy(s, f), times, f, now);
      FlushedDue(Pushed(Roomy(s, f), f, now), times + [now]);
    } else {
      assert times + [] == times;
    }
  }

  /** The frame ends a delivery because it presses. */
  ghost predicate ForPressing(i: Input, delivery: seq<Bytes>) {
    Presses(i) && delivery != [] && i.frame.value == delivery[|delivery| - 1]
  }

  /** The frame has no room behind the delivery. */
  predicate ForRoom(i: Input, delivery: seq<Bytes>) {
    i.Incoming? && i.frame.Some? && delivery != [] && |Payload(delivery + [i.frame.value])| > 7680
  }

  /** The window of the delivery's first frame has elapsed. */
  predicate ForWindow(i: Input, now: nat, arrived: nat) { i.WindowElapsed? && now >= arrived + 8 }

  lemma TurnHasCause(s: Loop, i: Input, now: nat, times: seq<nat>, g: nat)
    requires DueByOldest(s, times) && |s.groups| <= g < |Turn(s, i, now).groups|
    ensures var delivery := Turn(s, i, now).groups[g];
            || ForPressing(i, delivery)
            || ForRoom(i, delivery)
            || (g == |s.groups| && s.buffered != [] && delivery == s.buffered
                && ForWindow(i, now, times[|times| - |s.buffered|]))
    ensures Turn(s, i, now).groups[..|s.groups|] == s.groups
  {
    PressesIff(i);
  }

  // ---- Every run ----

  /** After every input the buffer falls due eight milliseconds after its oldest frame arrived. */
  lemma {:induction false} DeadlineIsOldest(inputs: seq<(Input, nat)>, n: nat)
    requires n <= |inputs|
    ensures DueByOldest(Turns(inputs[..n]), Times(inputs, n))
  {
    if n > 0 {
      DeadlineIsOldest(inputs, n - 1);
      TurnsSnoc(inputs, n - 1);
      TurnDue(Turns(inputs[..n - 1]), inputs[n - 1].0, inputs[n - 1].1, Times(inputs, n - 1));
    }
  }

  /** The number of frames delivered before delivery `g`. */
  function Before(groups: seq<seq<Bytes>>, g: nat): nat
    requires g <= |groups|
  {
    |Concat(groups[..g])|
  }

  lemma BufferedFollows(inputs: seq<(Input, nat)>, n: nat)
    requires n <= |inputs|
    ensures var s := Turns(inputs[..n]);
            |Concat(s.groups)| == |Times(inputs, n)| - |s.buffered|
  {
    AlwaysSound(inputs, n);
    OneTimePerFrame(inputs, n);
  }

  /**
   A delivery goes out with an input, and that input is why: its frame presses and is the last one delivered, or
   its frame did not fit behind it, or it is the timer and the window of the first frame delivered has elapsed.
   */
  lemma DeliveredForCause(inputs: seq<(Input, nat)>, n: nat, g: nat)
    requires n < |inputs| && |Turns(inputs[..n]).groups| <= g < |Turns(inputs[..n + 1]).groups|
    ensures var (i, now) := inputs[n];
            var groups := Turns(inputs[..n + 1]).groups;
            || ForPressing(i, groups[g])
            || ForRoom(i, groups[g])
            || (Before(groups, g) < |Times(inputs, n)| && ForWindow(i, now, Times(inputs, n)[Before(groups, g)]))
  {
    var s := Turns(inputs[..n]);
    TurnsSnoc(inputs, n);
    DeadlineIsOldest(inputs, n);
    BufferedFollows(inputs, n);
    TurnHasCause(s, inputs[n].0, inputs[n].1, Times(inputs, n), g);
  }

  /** A pressing frame leaves nothing held. */
  lemma PressingEmpties(inputs: seq<(Input, nat)>, n: nat)
    requires n < |inputs| && Presses(inputs[n].0)
    ensures Turns(inputs[..n + 1]).buffered == []
  {
    TurnsSnoc(inputs, n);
    PressesIff(inputs[n].0);
  }

  /** The timer leaves nothing held once the window of the oldest held frame has elapsed. */
  lemma TimerEmpties(inputs: seq<(Input, nat)>, n: nat)
    requires n < |inputs| && inputs[n].0.WindowElapsed?
    ensures var held := |Turns(inputs[..n]).buffered|;
            && held <= |Times(inputs, n)|
            && (held > 0 && inputs[n].1 >= Times(inputs, n)[|Times(inputs, n)| - held] + 8 ==>
                  Turns(inputs[..n + 1]).buffered == [])
  {
    TurnsSnoc(inputs, n);
    DeadlineIsOldest(inputs, n);
  }

  /** A frame that does not press is not sent alone: it opens a buffer and a window. */
  lemma LoneFrameWaits(inputs: seq<(Input, nat)>, n: nat)
    requires n < |inputs| && Turns(inputs[..n]).buffered == [] && Frame(inputs[n].0) != [] && !Presses(inputs[n].0)
    ensures Turns(inputs[..n + 1]) == Loop(Turns(inputs[..n]).groups, Frame(inputs[n].0), Some(inputs[n].1 + 8))
  {
    TurnsSnoc(inputs, n);
    DeadlineIsOldest(inputs, n);
    PressesIff(inputs[n].0);
  }
}
