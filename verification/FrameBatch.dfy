/** Coalescing inbound WebSocket frames into IPC deliveries: in order, under the ceiling, lost only to an abort. */
module FrameBatch {
  import opened Options
  import Text

  type Bytes = seq<bv8>

  const OPEN: bv8 := 0x5B
  const COMMA: bv8 := 0x2C
  const CLOSE: bv8 := 0x5D

  const BATCH_WINDOW: nat := 8  // milliseconds
  const BATCH_MAX_BYTES: nat := 7680

  // ---- The delivered array ----

  function Join(frames: seq<Bytes>): Bytes {
    if frames == [] then []
    else if |frames| == 1 then frames[0]
    else Join(frames[..|frames| - 1]) + [COMMA] + frames[|frames| - 1]
  }

  function Payload(frames: seq<Bytes>): Bytes { [OPEN] + Join(frames) + [CLOSE] }

  lemma JoinSnoc(frames: seq<Bytes>, f: Bytes)
    requires frames != []
    ensures Join(frames + [f]) == Join(frames) + [COMMA] + f
  {
    assert (frames + [f])[..|frames|] == frames;
  }

  function Concat(groups: seq<seq<Bytes>>): seq<Bytes> {
    if groups == [] then [] else Concat(groups[..|groups| - 1]) + groups[|groups| - 1]
  }

  lemma ConcatSnoc(groups: seq<seq<Bytes>>, g: seq<Bytes>)
    ensures Concat(groups + [g]) == Concat(groups) + g
  {
    assert (groups + [g])[..|groups|] == groups;
  }

  // ---- The batch ----

  class Batch {
    var frames: seq<Bytes>
    var serializedLen: nat
    var deadline: Option<nat>

    constructor ()
      ensures Valid() && frames == [] && deadline == None
    {
      frames, serializedLen, deadline := [], 0, None;
    }

    /** The tracked length is the length of the array that would be delivered; a deadline stands while one is open. */
    ghost predicate Valid()
      reads this
    {
      if frames == [] then serializedLen == 0 && deadline.None?
      else serializedLen == |Payload(frames)| && deadline.Some?
    }

    /** With the deliveries made so far. */
    ghost function At(groups: seq<seq<Bytes>>): Loop
      reads this
    {
      Loop(groups, frames, deadline)
    }

    function ProjectedLen(frame: Bytes): (n: nat)
      requires Valid()
      reads this
      ensures n == |Payload(frames + [frame])|
    {
      if frames != [] then JoinSnoc(frames, frame); Max(serializedLen, 2) + 1 + |frame|
      else assert frames + [frame] == [frame]; Max(serializedLen, 2) + |frame|
    }

    method Push(frame: Bytes, now: nat)
      requires Valid()
      modifies this
      ensures Valid() && frames == old(frames) + [frame]
      ensures deadline == if old(deadline).Some? then old(deadline) else Some(now + BATCH_WINDOW)
    {
      serializedLen := ProjectedLen(frame);
      frames := frames + [frame];
      if deadline.None? { deadline := Some(now + BATCH_WINDOW); }
    }

    /** What goes to the renderer, if anything. */
    method Flush() returns (payload: Option<Bytes>)
      requires Valid()
      modifies this
      ensures Valid() && frames == [] && deadline == None
      ensures payload == if old(frames) == [] then None else Some(Payload(old(frames)))
    {
      if frames == [] { return None; }
      payload := Some(Payload(frames));
      frames, serializedLen, deadline := [], 0, None;
    }
  }

  // ---- The connection loop ----

  datatype Message = Text(payload: string) | Data | Closing | Failed

  /**
   What `select!` may hand the loop; a frame is `None` when its message cannot be serialized. `Aborted` is the end
   `disconnect_handle` puts to a task still in an await, a write or the closing handshake, 250 ms after cancelling it.
   */
  datatype Input =
    | Incoming(message: Message, frame: Option<Bytes>)
    | WindowElapsed
    | SendRequested(ok: bool)
    | SendersGone
    | Cancelled
    | Aborted

  /** The NIP-42 challenge, recognised in the relay payload. */
  predicate IsAuthChallenge(payload: string) {
    var p := Text.TrimStart(payload);
    p != "" && p[0] == '[' && "\"AUTH\"" <= Text.TrimStart(p[1..])
  }

  /** White space, `[`, white space, `"AUTH"`, and then anything. */
  ghost predicate SpelledChallenge(payload: string, a: string, b: string, rest: string) {
    Text.AllWhite(a) && Text.AllWhite(b) && payload == a + "[" + b + "\"AUTH\"" + rest
  }

  lemma Regroup(a: string, m: string, b: string, n: string, r: string)
    ensures a + (m + (b + (n + r))) == a + m + b + n + r
  {
    assert m + (b + (n + r)) == m + b + n + r;
  }

  lemma ChallengeIsSpelled(payload: string) returns (a: string, b: string, rest: string)
    requires IsAuthChallenge(payload)
    ensures SpelledChallenge(payload, a, b, rest)
  {
    a := Text.TrimmedOff(payload);
    var p := Text.TrimStart(payload);
    b := Text.TrimmedOff(p[1..]);
    var q := Text.TrimStart(p[1..]);
    rest := q[6..];
    assert q == "\"AUTH\"" + rest;
    assert p == "[" + p[1..];
    Regroup(a, "[", b, "\"AUTH\"", rest);
  }

  /** Those payloads are challenges, and no others are. */
  lemma ChallengeIff(payload: string)
    ensures IsAuthChallenge(payload) <==> exists a, b, rest :: SpelledChallenge(payload, a, b, rest)
  {
    if IsAuthChallenge(payload) {
      var a, b, rest := ChallengeIsSpelled(payload);
      assert SpelledChallenge(payload, a, b, rest);
    }
    forall a, b, rest | SpelledChallenge(payload, a, b, rest)
      ensures IsAuthChallenge(payload)
    {
      SpelledIsChallenge(payload, a, b, rest);
    }
  }

  lemma SpelledIsChallenge(payload: string, a: string, b: string, rest: string)
    requires SpelledChallenge(payload, a, b, rest)
    ensures IsAuthChallenge(payload)
  {
    var tail := "\"AUTH\"" + rest;
    var p := "[" + (b + tail);
    Regroup(a, "[", b, "\"AUTH\"", rest);
    Text.TrimStartOfPadded(a, p);
    assert p[1..] == b + tail;
    Text.TrimStartOfPadded(b, tail);
    assert Text.TrimStart(tail) == tail;
  }

  predicate Terminal(i: Input) { i.Incoming? && i.frame.Some? && (i.message.Closing? || i.message.Failed?) }

  predicate Urgent(i: Input) { i.Incoming? && i.frame.Some? && i.message.Text? && IsAuthChallenge(i.message.payload) }

  predicate Stops(i: Input) {
    Terminal(i) || i.Cancelled? || i.Aborted? || i.SendersGone? || i == SendRequested(false)
  }

  /** The inputs after which the loop is left, one by one. */
  predicate EndsLoop(i: Input) {
    match i
    case Incoming(Closing, Some(_)) => true
    case Incoming(Failed, Some(_)) => true
    case SendRequested(ok) => !ok
    case Incoming(_, _) => false
    case WindowElapsed => false
    case _ => true
  }

  /** The frames that are not held back: an end of the socket, or a challenge as it is spelled. */
  ghost predicate Presses(i: Input) {
    match i
    case Incoming(Closing, Some(_)) => true
    case Incoming(Failed, Some(_)) => true
    case Incoming(Text(payload), Some(_)) => exists a, b, rest :: SpelledChallenge(payload, a, b, rest)
    case _ => false
  }

  lemma PressesIff(i: Input)
    ensures Presses(i) <==> Terminal(i) || Urgent(i)
  {
    if i.Incoming? && i.message.Text? {
      ChallengeIff(i.message.payload);
    }
  }

  function Frame(i: Input): seq<Bytes> { if i.Incoming? && i.frame.Some? then [i.frame.value] else [] }

  /** The frames the relay delivered, in order. */
  function Received(inputs: seq<(Input, nat)>): seq<Bytes> {
    if inputs == [] then [] else Received(inputs[..|inputs| - 1]) + Frame(inputs[|inputs| - 1].0)
  }

  lemma ReceivedSnoc(inputs: seq<(Input, nat)>, k: nat)
    requires k < |inputs|
    ensures Received(inputs[..k + 1]) == Received(inputs[..k]) + Frame(inputs[k].0)
  {
    assert inputs[..k + 1][..k] == inputs[..k];
  }

  /** One delivery holds at least one frame, and two or more only below the ceiling. */
  predicate FitsCeiling(g: seq<Bytes>) { g != [] && (|g| >= 2 ==> |Payload(g)| <= 7680) }

  function Payloads(groups: seq<seq<Bytes>>): seq<Bytes> {
    seq(|groups|, i requires 0 <= i < |groups| => Payload(groups[i]))
  }

  // ---- One turn, on values ----

  /** What the loop is at between two inputs: the deliveries, the buffer, and when it falls due. */
  datatype Loop = Loop(groups: seq<seq<Bytes>>, buffered: seq<Bytes>, deadline: Option<nat>)

  const START := Loop([], [], None)

  function Flushed(s: Loop): Loop {
    if s.buffered == [] then s else Loop(s.groups + [s.buffered], [], None)
  }

  function Pushed(s: Loop, frame: Bytes, now: nat): Loop {
    Loop(s.groups, s.buffered + [frame], if s.deadline.Some? then s.deadline else Some(now + BATCH_WINDOW))
  }

  /** Room for the frame: what is buffered goes first if the two do not fit. */
  function Roomy(s: Loop, frame: Bytes): Loop {
    if |Payload(s.buffered + [frame])| > BATCH_MAX_BYTES then Flushed(s) else s
  }

  function Turn(s: Loop, i: Input, now: nat): Loop {
    match i
    case WindowElapsed => if s.deadline.Some? && now >= s.deadline.value then Flushed(s) else s
    case Incoming(_, Some(frame)) =>
      var p := Pushed(Roomy(s, frame), frame, now);
      if Terminal(i) || Urgent(i) then Flushed(p) else p
    case _ => s
  }

  function Turns(inputs: seq<(Input, nat)>): Loop {
    if inputs == [] then START
    else Turn(Turns(inputs[..|inputs| - 1]), inputs[|inputs| - 1].0, inputs[|inputs| - 1].1)
  }

  lemma TurnsSnoc(inputs: seq<(Input, nat)>, k: nat)
    requires k < |inputs|
    ensures Turns(inputs[..k + 1]) == Turn(Turns(inputs[..k]), inputs[k].0, inputs[k].1)
  {
    assert inputs[..k + 1][..k] == inputs[..k];
  }

  // ---- Conservation ----

  /** Deliveries so far, and what is still buffered, against what was received. */
  ghost predicate Conserves(groups: seq<seq<Bytes>>, buffered: seq<Bytes>, received: seq<Bytes>) {
    && Concat(groups) + buffered == received
    && (forall g :: g in groups ==> FitsCeiling(g))
    && (|buffered| >= 2 ==> |Payload(buffered)| <= 7680)
  }

  lemma FlushConserves(groups: seq<seq<Bytes>>, buffered: seq<Bytes>, received: seq<Bytes>)
    requires Conserves(groups, buffered, received) && buffered != []
    ensures Conserves(groups + [buffered], [], received)
    ensures Payloads(groups + [buffered]) == Payloads(groups) + [Payload(buffered)]
  {
    ConcatSnoc(groups, buffered);
  }

  lemma PushConserves(groups: seq<seq<Bytes>>, buffered: seq<Bytes>, received: seq<Bytes>, f: Bytes)
    requires Conserves(groups, buffered, received)
    requires buffered != [] ==> |Payload(buffered + [f])| <= BATCH_MAX_BYTES
    ensures Conserves(groups, buffered + [f], received + [f])
  {
    assert Concat(groups) + (buffered + [f]) == (Concat(groups) + buffered) + [f];
  }

  lemma FlushedConserves(s: Loop, received: seq<Bytes>)
    requires Conserves(s.groups, s.buffered, received)
    ensures Conserves(Flushed(s).groups, Flushed(s).buffered, received) && Flushed(s).buffered == []
    ensures s.groups <= Flushed(s).groups
  {
    if s.buffered != [] {
      FlushConserves(s.groups, s.buffered, received);
    }
  }

  lemma PushedConserves(s: Loop, frame: Bytes, now: nat, received: seq<Bytes>)
    requires Conserves(s.groups, s.buffered, received)
    ensures var p := Pushed(Roomy(s, frame), frame, now);
            Conserves(p.groups, p.buffered, received + [frame]) && s.groups <= p.groups
  {
    FlushedConserves(s, received);
    var roomy := Roomy(s, frame);
    PushConserves(roomy.groups, roomy.buffered, received, frame);
  }

  lemma TurnConserves(s: Loop, i: Input, now: nat, received: seq<Bytes>)
    requires Conserves(s.groups, s.buffered, received)
    ensures var t := Turn(s, i, now);
            && Conserves(t.groups, t.buffered, received + Frame(i)) && s.groups <= t.groups
            && (Terminal(i) || Urgent(i) ==> t.buffered == [])
  {
    if i.Incoming? && i.frame.Some? {
      var f := i.frame.value;
      PushedConserves(s, f, now, received);
      FlushedConserves(Pushed(Roomy(s, f), f, now), received + [f]);
    } else {
      assert received + Frame(i) == received;
      FlushedConserves(s, received);
    }
  }

  lemma PayloadsSnoc(groups: seq<seq<Bytes>>, g: seq<Bytes>)
    ensures Payloads(groups + [g]) == Payloads(groups) + [Payload(g)]
  {
  }

  // ---- The loop ----

  /** Flush into the record of deliveries. */
  method Deliver(batch: Batch, deliveries: seq<Bytes>, ghost groups: seq<seq<Bytes>>)
    returns (sent: seq<Bytes>, ghost sentGroups: seq<seq<Bytes>>)
    requires batch.Valid() && deliveries == Payloads(groups)
    modifies batch
    ensures batch.Valid() && sent == Payloads(sentGroups)
    ensures batch.At(sentGroups) == Flushed(old(batch.At(groups)))
  {
    ghost var buffered := batch.frames;
    var payload := batch.Flush();
    sent, sentGroups := deliveries, groups;
    if payload.Some? {
      PayloadsSnoc(groups, buffered);
      sent, sentGroups := sent + [payload.value], groups + [buffered];
    }
  }

  /** Where the loop leaves: after the first input that stops it, or when the inputs run out. */
  ghost predicate StopsAt(inputs: seq<(Input, nat)>, consumed: nat) {
    && consumed <= |inputs|
    && (forall k :: 0 <= k < consumed - 1 ==> !EndsLoop(inputs[k].0))
    && (consumed < |inputs| ==> consumed > 0 && EndsLoop(inputs[consumed - 1].0))
  }

  /** The loop's state against what it received; `Conserves`, for every number of inputs. */
  ghost predicate Sound(inputs: seq<(Input, nat)>, k: nat)
    requires k <= |inputs|
  {
    var s := Turns(inputs[..k]);
    Conserves(s.groups, s.buffered, Received(inputs[..k]))
  }

  lemma SoundAtStart(inputs: seq<(Input, nat)>)
    ensures Sound(inputs, 0)
  {
  }

  lemma StepSound(inputs: seq<(Input, nat)>, k: nat)
    requires k < |inputs| && Sound(inputs, k)
    ensures Sound(inputs, k + 1) && Turns(inputs[..k]).groups <= Turns(inputs[..k + 1]).groups
    ensures Terminal(inputs[k].0) || Urgent(inputs[k].0) ==> Turns(inputs[..k + 1]).buffered == []
  {
    TurnConserves(Turns(inputs[..k]), inputs[k].0, inputs[k].1, Received(inputs[..k]));
    ReceivedSnoc(inputs, k);
    TurnsSnoc(inputs, k);
  }

  lemma {:induction false} AlwaysSound(inputs: seq<(Input, nat)>, k: nat)
    requires k <= |inputs|
    ensures Sound(inputs, k)
  {
    if k == 0 {
      SoundAtStart(inputs);
    } else {
      AlwaysSound(inputs, k - 1);
      StepSound(inputs, k - 1);
    }
  }

  lemma {:induction false} DeliveriesGrow(inputs: seq<(Input, nat)>, k: nat, n: nat)
    requires k <= n <= |inputs|
    ensures Turns(inputs[..k]).groups <= Turns(inputs[..n]).groups
  {
    if k < n {
      DeliveriesGrow(inputs, k, n - 1);
      AlwaysSound(inputs, n - 1);
      StepSound(inputs, n - 1);
    }
  }

  /** `mark` deliveries had gone out once input `k` was handled; by then a pressing frame was among them. */
  ghost predicate Marked(inputs: seq<(Input, nat)>, k: nat, mark: nat, groups: seq<seq<Bytes>>)
    requires k < |inputs|
  {
    && mark <= |groups|
    && (Presses(inputs[k].0) ==> Concat(groups[..mark]) == Received(inputs[..k + 1]))
  }

  ghost predicate Marks(inputs: seq<(Input, nat)>, marks: seq<nat>, groups: seq<seq<Bytes>>) {
    |marks| <= |inputs| && forall k :: 0 <= k < |marks| ==> Marked(inputs, k, marks[k], groups)
  }

  /** The number of deliveries after each input. */
  ghost predicate Counts(inputs: seq<(Input, nat)>, marks: seq<nat>) {
    |marks| <= |inputs| && forall k :: 0 <= k < |marks| ==> marks[k] == |Turns(inputs[..k + 1]).groups|
  }

  /** The loop after `n` inputs. */
  ghost predicate Pumped(inputs: seq<(Input, nat)>, n: nat, s: Loop, marks: seq<nat>) {
    n <= |inputs| && s == Turns(inputs[..n]) && |marks| == n && Counts(inputs, marks)
  }

  lemma PumpedNext(inputs: seq<(Input, nat)>, n: nat, s: Loop, marks: seq<nat>)
    requires Pumped(inputs, n, s, marks) && n < |inputs|
    ensures var t := Turn(s, inputs[n].0, inputs[n].1);
            Pumped(inputs, n + 1, t, marks + [|t.groups|])
  {
    TurnsSnoc(inputs, n);
  }

  lemma PressingIsOut(inputs: seq<(Input, nat)>, k: nat)
    requires k < |inputs| && Presses(inputs[k].0)
    ensures Concat(Turns(inputs[..k + 1]).groups) == Received(inputs[..k + 1])
  {
    AlwaysSound(inputs, k);
    PressesIff(inputs[k].0);
    StepSound(inputs, k);
  }

  lemma CountIsMark(inputs: seq<(Input, nat)>, k: nat, n: nat, groups: seq<seq<Bytes>>)
    requires k < n <= |inputs| && Turns(inputs[..n]).groups <= groups
    ensures Marked(inputs, k, |Turns(inputs[..k + 1]).groups|, groups)
  {
    DeliveriesGrow(inputs, k + 1, n);
    assert groups[..|Turns(inputs[..k + 1]).groups|] == Turns(inputs[..k + 1]).groups;
    if Presses(inputs[k].0) {
      PressingIsOut(inputs, k);
    }
  }

  lemma CountsAreMarks(inputs: seq<(Input, nat)>, marks: seq<nat>, groups: seq<seq<Bytes>>)
    requires Counts(inputs, marks) && Turns(inputs[..|marks|]).groups <= groups
    ensures Marks(inputs, marks, groups)
  {
    forall k | 0 <= k < |marks|
      ensures Marked(inputs, k, marks[k], groups)
    {
      CountIsMark(inputs, k, |marks|, groups);
    }
  }

  /** A frame: what is buffered goes first if the two do not fit, and both go at once if the frame presses. */
  method TakeFrame(batch: Batch, input: Input, now: nat, deliveries: seq<Bytes>, ghost groups: seq<seq<Bytes>>)
    returns (sent: seq<Bytes>, ghost sentGroups: seq<seq<Bytes>>)
    requires input.Incoming? && input.frame.Some?
    requires batch.Valid() && deliveries == Payloads(groups)
    modifies batch
    ensures batch.Valid() && sent == Payloads(sentGroups)
    ensures batch.At(sentGroups) == Turn(old(batch.At(groups)), input, now)
  {
    var frame := input.frame.value;
    sent, sentGroups := deliveries, groups;
    if batch.ProjectedLen(frame) > BATCH_MAX_BYTES {
      sent, sentGroups := Deliver(batch, sent, sentGroups);
    }
    batch.Push(frame, now);
    if Terminal(input) || Urgent(input) {
      sent, sentGroups := Deliver(batch, sent, sentGroups);
    }
  }

  /** One turn of `select!`. */
  method Handle(batch: Batch, input: Input, now: nat, deliveries: seq<Bytes>, ghost groups: seq<seq<Bytes>>)
    returns (sent: seq<Bytes>, ghost sentGroups: seq<seq<Bytes>>)
    requires batch.Valid() && deliveries == Payloads(groups)
    modifies batch
    ensures batch.Valid() && sent == Payloads(sentGroups)
    ensures batch.At(sentGroups) == Turn(old(batch.At(groups)), input, now)
  {
    sent, sentGroups := deliveries, groups;
    match input
    case WindowElapsed =>
      if batch.deadline.Some? && now >= batch.deadline.value {
        sent, sentGroups := Deliver(batch, sent, sentGroups);
      }
    case Incoming(_, Some(_)) => sent, sentGroups := TakeFrame(batch, input, now, sent, sentGroups);
    case _ =>
  }

  /** Only the last input handled stops the loop. */
  ghost predicate StoppedBy(inputs: seq<(Input, nat)>, consumed: nat, stopped: bool) {
    && consumed <= |inputs|
    && (forall k :: 0 <= k < consumed - 1 ==> !EndsLoop(inputs[k].0))
    && (stopped <==> consumed > 0 && EndsLoop(inputs[consumed - 1].0))
  }

  lemma StoppedByNext(inputs: seq<(Input, nat)>, consumed: nat)
    requires StoppedBy(inputs, consumed, false) && consumed < |inputs|
    ensures StoppedBy(inputs, consumed + 1, Stops(inputs[consumed].0))
  {
  }

  /** The loop itself, up to the input that stops it. */
  method Pump(batch: Batch, inputs: seq<(Input, nat)>)
    returns (deliveries: seq<Bytes>, consumed: nat, ghost groups: seq<seq<Bytes>>, marks: seq<nat>)
    requires batch.Valid() && batch.frames == []
    modifies batch
    ensures batch.Valid() && StopsAt(inputs, consumed)
    ensures deliveries == Payloads(groups) && Pumped(inputs, consumed, batch.At(groups), marks)
  {
    deliveries, consumed, groups, marks := [], 0, [], [];
    var stopped := false;
    while consumed < |inputs| && !stopped
      invariant batch.Valid() && StoppedBy(inputs, consumed, stopped)
      invariant deliveries == Payloads(groups) && Pumped(inputs, consumed, batch.At(groups), marks)
      decreases |inputs| - consumed, !stopped
    {
      var input := inputs[consumed].0;
      PumpedNext(inputs, consumed, batch.At(groups), marks);
      deliveries, groups := Handle(batch, input, inputs[consumed].1, deliveries, groups);
      StoppedByNext(inputs, consumed);
      consumed, marks, stopped := consumed + 1, marks + [|deliveries|], Stops(input);
    }
  }

  /** The deliveries once the loop is left: the buffer goes too, unless the task was aborted. */
  function AtExit(s: Loop, aborted: bool): seq<seq<Bytes>> { if aborted then s.groups else Flushed(s).groups }

  predicate WasAborted(inputs: seq<(Input, nat)>, consumed: nat)
    requires consumed <= |inputs|
  {
    consumed > 0 && inputs[consumed - 1].0.Aborted?
  }

  /**
   For every sequence of frames, timer firings, sends, cancellations and aborts: the deliveries and then the
   frames lost are the received frames, in order; each array is non-empty and under the ceiling unless it
   carries a single frame; an urgent frame is on its way before anything after it is read; and only an abort
   loses frames, those still buffered, which fit one delivery and came after every urgent or terminal one.
   */
  method RunConnection(inputs: seq<(Input, nat)>)
    returns (deliveries: seq<Bytes>, consumed: nat, lost: seq<Bytes>, ghost groups: seq<seq<Bytes>>, marks: seq<nat>)
    ensures StopsAt(inputs, consumed)
    ensures deliveries == Payloads(groups) && Conserves(groups, lost, Received(inputs[..consumed]))
    ensures lost == if WasAborted(inputs, consumed) then Turns(inputs[..consumed]).buffered else []
    ensures groups == AtExit(Turns(inputs[..consumed]), WasAborted(inputs, consumed))
    ensures |marks| == consumed && Marks(inputs, marks, groups)
  {
    var batch := new Batch();
    deliveries, consumed, groups, marks := Pump(batch, inputs);
    AlwaysSound(inputs, consumed);
    if WasAborted(inputs, consumed) {
      lost := batch.frames;
    } else {
      FlushedConserves(batch.At(groups), Received(inputs[..consumed]));
      deliveries, groups := Deliver(batch, deliveries, groups);
      lost := [];
    }
    CountsAreMarks(inputs, marks, groups);
  }

  // ---- What the renderer reads ----

  /** A JSON scanner's memory: nesting, inside a string, after a backslash. */
  datatype Scan = Scan(depth: nat, quoted: bool, escaped: bool)

  const TOP := Scan(0, false, false)

  function Step(s: Scan, b: bv8): Scan {
    if s.quoted then
      if s.escaped then s.(escaped := false)
      else if b == 0x5C then s.(escaped := true)
      else if b == 0x22 then s.(quoted := false)
      else s
    else if b == 0x22 then s.(quoted := true)
    else if b == 0x7B || b == OPEN then s.(depth := s.depth + 1)
    else if (b == 0x7D || b == CLOSE) && s.depth > 0 then s.(depth := s.depth - 1)
    else s
  }

  /** One JSON value: it returns to the top level and has no comma there. */
  predicate OneValue(frame: Bytes, s: Scan) {
    if frame == [] then s == TOP else !(s == TOP && frame[0] == COMMA) && OneValue(frame[1..], Step(s, frame[0]))
  }

  /** Splits the inside of an array at its top-level commas. */
  function Split(bytes: Bytes, s: Scan, current: Bytes): seq<Bytes>
    decreases bytes
  {
    if bytes == [] then [current]
    else if s == TOP && bytes[0] == COMMA then [current] + Split(bytes[1..], TOP, [])
    else Split(bytes[1..], Step(s, bytes[0]), current + [bytes[0]])
  }

  function Elements(payload: Bytes): seq<Bytes>
    requires |payload| >= 2
  {
    Split(payload[1..|payload| - 1], TOP, [])
  }

  lemma {:induction false} SplitPastValue(frame: Bytes, rest: Bytes, s: Scan, current: Bytes)
    requires OneValue(frame, s)
    ensures Split(frame + rest, s, current) == Split(rest, TOP, current + frame)
    decreases frame
  {
    if frame == [] {
      assert frame + rest == rest && current + frame == current;
    } else {
      assert (frame + rest)[1..] == frame[1..] + rest;
      SplitPastValue(frame[1..], rest, Step(s, frame[0]), current + [frame[0]]);
      assert current + [frame[0]] + frame[1..] == current + frame;
    }
  }

  /** Joining from the front, which is how the reader meets the frames. */
  lemma {:induction false} JoinFront(frames: seq<Bytes>)
    requires |frames| >= 2
    ensures Join(frames) == frames[0] + ([COMMA] + Join(frames[1..]))
  {
    var last := frames[|frames| - 1];
    if |frames| == 2 {
      assert Join(frames[..1]) == frames[0] && Join(frames[1..]) == last;
    } else {
      var init := frames[..|frames| - 1];
      JoinFront(init);
      assert init[1..] == frames[1..][..|frames| - 2];
      assert Join(frames[1..]) == Join(init[1..]) + [COMMA] + last;
    }
  }

  lemma {:induction false} SplitJoin(frames: seq<Bytes>)
    requires frames != [] && forall f :: f in frames ==> OneValue(f, TOP)
    ensures Split(Join(frames), TOP, []) == frames
  {
    assert [] + frames[0] == frames[0];
    if |frames| == 1 {
      assert frames[0] + [] == frames[0];
      SplitPastValue(frames[0], [], TOP, []);
    } else {
      var tail := [COMMA] + Join(frames[1..]);
      JoinFront(frames);
      SplitPastValue(frames[0], tail, TOP, []);
      assert tail[1..] == Join(frames[1..]);
      SplitJoin(frames[1..]);
      assert frames == [frames[0]] + frames[1..];
    }
  }

  /** The renderer gets back exactly the frames of a delivery, whatever commas they carry inside. */
  lemma DeliveryReadsBack(frames: seq<Bytes>)
    requires frames != [] && forall f :: f in frames ==> OneValue(f, TOP)
    ensures Elements(Payload(frames)) == frames
  {
    assert Payload(frames)[1..|Payload(frames)| - 1] == Join(frames);
    SplitJoin(frames);
  }
}
