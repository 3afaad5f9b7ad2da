/** The microphone tap: audio blocks of any size re-framed into 960-sample messages. */
module Worklet {
  import opened Options

  datatype Sample = Sample(bits: nat)

  const SILENCE := Sample(0)

  const FRAME: nat := 960

  // ---- The reference: cut the stream every 960 samples ----

  function Frames(s: seq<Sample>): (fs: seq<seq<Sample>>)
    ensures forall f :: f in fs ==> |f| == FRAME
    ensures FRAME * |fs| <= |s| < FRAME * |fs| + FRAME
  {
    if |s| < FRAME then [] else [s[..FRAME]] + Frames(s[FRAME..])
  }

  function Rest(s: seq<Sample>): seq<Sample> { if |s| < FRAME then s else Rest(s[FRAME..]) }

  function Flatten(fs: seq<seq<Sample>>): seq<Sample> { if fs == [] then [] else fs[0] + Flatten(fs[1..]) }

  /** Nothing is lost or reordered by the cut, and what is over is less than a frame. */
  lemma {:induction false} CutConserves(s: seq<Sample>)
    ensures Flatten(Frames(s)) + Rest(s) == s && |Rest(s)| < FRAME
  {
    if |s| >= FRAME {
      CutConserves(s[FRAME..]);
      assert Frames(s)[1..] == Frames(s[FRAME..]);
      assert s == s[..FRAME] + s[FRAME..];
    }
  }

  predicate AllFrames(fs: seq<seq<Sample>>) { forall i :: 0 <= i < |fs| ==> |fs[i]| == FRAME }

  lemma {:induction false} FlattenSnoc(fs: seq<seq<Sample>>, f: seq<Sample>)
    ensures Flatten(fs + [f]) == Flatten(fs) + f
  {
    if fs == [] {
      assert fs + [f] == [f] && Flatten([f]) == f + Flatten([]);
    } else {
      FlattenSnoc(fs[1..], f);
      assert (fs + [f])[1..] == fs[1..] + [f];
    }
  }

  /** There is only one way to cut a stream into frames with less than a frame over. */
  lemma {:induction false} OnlyCut(fs: seq<seq<Sample>>, rest: seq<Sample>)
    requires AllFrames(fs) && |rest| < FRAME
    ensures Frames(Flatten(fs) + rest) == fs && Rest(Flatten(fs) + rest) == rest
  {
    var s := Flatten(fs) + rest;
    if fs == [] {
      assert s == rest;
    } else {
      assert |fs[0]| == FRAME;
      assert s == fs[0] + (Flatten(fs[1..]) + rest);
      assert s[..FRAME] == fs[0] && s[FRAME..] == Flatten(fs[1..]) + rest;
      OnlyCut(fs[1..], rest);
    }
  }

  // ---- The processor ----

  class SttTapProcessor {
    var buffer: array<Sample>
    var offset: nat
    var transmitting: bool
    var posted: seq<seq<Sample>>

    /** A full buffer is possible only between a block that fills it exactly and the next one. */
    ghost predicate Valid()
      reads this
    {
      buffer.Length == FRAME && offset <= FRAME
    }

    ghost function Held(): seq<Sample>
      requires Valid()
      reads this, buffer
    {
      buffer[..offset]
    }

    constructor ()
      ensures Valid() && fresh(buffer) && Held() == [] && transmitting && posted == []
    {
      buffer := new Sample[FRAME](_ => SILENCE);
      offset, transmitting, posted := 0, true, [];
    }

    method SetTransmitting(active: bool)
      modifies this`transmitting
      ensures transmitting == active
    {
      transmitting := active;
    }

    /** `Float32Array.set`: copies a block that fits at a position. */
    method Set(block: seq<Sample>, at: nat)
      requires Valid() && at + |block| <= FRAME
      modifies buffer
      ensures buffer[..at] == old(buffer[..at]) && buffer[at..at + |block|] == block
    {
      for i := 0 to |block|
        invariant buffer[..at] == old(buffer[..at])
        invariant buffer[at..at + i] == block[..i]
      {
        buffer[at + i] := block[i];
        assert block[..i + 1] == block[..i] + [block[i]];
      }
    }

    /** The audio callback; `threw` is the RangeError of a remainder longer than a frame, which is then lost. */
    method Process(input: Option<seq<Sample>>) returns (threw: bool)
      requires Valid()
      modifies this, buffer
      ensures Valid() && transmitting == old(transmitting) && (buffer == old(buffer) || fresh(buffer))
      ensures threw <==> input.Some? && transmitting && |old(Held())| + |input.value| > 1920
      ensures input.None? ==> Held() == old(Held()) && posted == old(posted)
      ensures input.Some? && !transmitting ==> Held() == [] && posted == old(posted)
      ensures input.Some? && transmitting ==>
                var joined := old(Held()) + input.value;
                if |joined| < 960 then posted == old(posted) && Held() == joined
                else posted == old(posted) + [joined[..960]] && Held() == if threw then [] else joined[960..]
    {
      if input.None? { return false; }
      if !transmitting {
        offset := 0;
        return false;
      }
      var block := input.value;
      ghost var joined := Held() + block;
      var toCopy := Min(|block|, FRAME - offset);
      ghost var held := offset;
      Set(block[..toCopy], offset);
      offset := offset + toCopy;
      assert buffer[..offset] == joined[..offset] by {
        assert buffer[..offset] == buffer[..held] + buffer[held..offset];
      }
      if offset >= FRAME {
        assert buffer[..] == buffer[..offset];
        posted := posted + [buffer[..]];
        buffer, offset := new Sample[FRAME](_ => SILENCE), 0;
        var leftover := block[toCopy..];
        assert leftover == joined[FRAME..];
        if |leftover| > FRAME { return true; }
        if toCopy < |block| {
          Set(leftover, 0);
          offset := |leftover|;
        }
      }
      threw := false;
    }
  }

  // ---- Every session ----

  /** What reaches the worklet: an audio block, a call with no input, or the push-to-talk switch. */
  datatype Event = Block(samples: seq<Sample>) | NoInput | Ptt(active: bool)

  function Talking(events: seq<Event>): bool {
    if events == [] then true
    else if events[|events| - 1].Ptt? then events[|events| - 1].active
    else Talking(events[..|events| - 1])
  }

  /**
   The stretches of talking so far, each with its samples; a block while muted ends one. The last is the present
   one.
   */
  function Stretches(events: seq<Event>): (r: seq<seq<Sample>>)
    ensures r != []
  {
    if events == [] then [[]]
    else
      var before, e := events[..|events| - 1], events[|events| - 1];
      var r := Stretches(before);
      if !e.Block? then r
      else if Talking(before) then r[|r| - 1 := r[|r| - 1] + e.samples]
      else r + [[]]
  }

  /** The stretch begins with these frames, and at most one frame of it is over. */
  ghost predicate Cut(stretch: seq<Sample>, frames: seq<seq<Sample>>) {
    AllFrames(frames) && Flatten(frames) <= stretch && |stretch| <= |Flatten(frames)| + FRAME
  }

  ghost predicate Over(stretch: seq<Sample>, frames: seq<seq<Sample>>, held: seq<Sample>) {
    AllFrames(frames) && Flatten(frames) + held == stretch && |held| <= FRAME
  }

  /**
   The messages are frames of the stretches, in order; of each stretch at most a frame is missing, the present
   one's is held.
   */
  ghost predicate Reframed(events: seq<Event>, groups: seq<seq<seq<Sample>>>, posted: seq<seq<Sample>>,
                           held: seq<Sample>) {
    var r := Stretches(events);
    && |groups| == |r| && posted == Joined(groups)
    && (forall i :: 0 <= i < |groups| - 1 ==> Cut(r[i], groups[i]))
    && Over(r[|r| - 1], groups[|r| - 1], held)
  }

  function Joined(groups: seq<seq<seq<Sample>>>): seq<seq<Sample>> {
    if groups == [] then [] else Joined(groups[..|groups| - 1]) + groups[|groups| - 1]
  }

  lemma JoinedSnoc(groups: seq<seq<seq<Sample>>>, g: seq<seq<Sample>>)
    ensures Joined(groups + [g]) == Joined(groups) + g
  {
    assert (groups + [g])[..|groups|] == groups;
  }

  lemma JoinedExtend(groups: seq<seq<seq<Sample>>>, f: seq<Sample>)
    requires groups != []
    ensures Joined(groups[|groups| - 1 := groups[|groups| - 1] + [f]]) == Joined(groups) + [f]
  {
    var init, last := groups[..|groups| - 1], groups[|groups| - 1];
    assert groups == init + [last];
    assert groups[|groups| - 1 := last + [f]] == init + [last + [f]];
    JoinedSnoc(init, last);
    JoinedSnoc(init, last + [f]);
  }

  /** The block would leave more than a frame after the one it completes: the copy throws. */
  predicate Throws(event: Event, talking: bool, held: seq<Sample>) {
    event.Block? && talking && |held| + |event.samples| > 2 * FRAME
  }

  function Posts(event: Event, talking: bool, held: seq<Sample>): seq<seq<Sample>> {
    if event.Block? && talking && |held + event.samples| >= FRAME then [(held + event.samples)[..FRAME]] else []
  }

  function Keeps(event: Event, talking: bool, held: seq<Sample>): seq<Sample> {
    if !event.Block? then held
    else if !talking then []
    else if |held + event.samples| >= FRAME then (held + event.samples)[FRAME..]
    else held + event.samples
  }

  function Regroup(event: Event, talking: bool, groups: seq<seq<seq<Sample>>>, held: seq<Sample>): seq<seq<seq<Sample>>>
    requires groups != []
  {
    if event.Block? && !talking then groups + [[]]
    else
      var last := |groups| - 1;
      groups[last := groups[last] + Posts(event, talking, held)]
  }

  lemma OverGrows(stretch: seq<Sample>, frames: seq<seq<Sample>>, held: seq<Sample>, event: Event)
    requires Over(stretch, frames, held) && event.Block? && !Throws(event, true, held)
    ensures Over(stretch + event.samples, frames + Posts(event, true, held), Keeps(event, true, held))
  {
    var joined := held + event.samples;
    assert Flatten(frames) + joined == stretch + event.samples;
    if |joined| >= FRAME {
      FlattenSnoc(frames, joined[..FRAME]);
      assert joined[..FRAME] + joined[FRAME..] == joined;
    } else {
      assert frames + [] == frames;
    }
  }

  lemma OverIsCut(stretch: seq<Sample>, frames: seq<seq<Sample>>, held: seq<Sample>)
    requires Over(stretch, frames, held)
    ensures Cut(stretch, frames)
  {
  }

  lemma QuietKeepsReframed(events: seq<Event>, i: nat, groups: seq<seq<seq<Sample>>>, posted: seq<seq<Sample>>,
                           held: seq<Sample>)
    requires i < |events| && Reframed(events[..i], groups, posted, held)
    requires !events[i].Block? || !Talking(events[..i])
    ensures var talking := Talking(events[..i]);
            Reframed(events[..i + 1], Regroup(events[i], talking, groups, held), posted,
                     Keeps(events[i], talking, held))
  {
    assert events[..i + 1][..i] == events[..i];
    var r := Stretches(events[..i]);
    if events[i].Block? {
      JoinedSnoc(groups, []);
      OverIsCut(r[|r| - 1], groups[|r| - 1], held);
      assert posted + [] == posted;
    } else {
      assert groups[|groups| - 1] + [] == groups[|groups| - 1];
    }
  }

  lemma SoundKeepsReframed(events: seq<Event>, i: nat, groups: seq<seq<seq<Sample>>>, posted: seq<seq<Sample>>,
                           held: seq<Sample>)
    requires i < |events| && Reframed(events[..i], groups, posted, held)
    requires events[i].Block? && Talking(events[..i]) && !Throws(events[i], true, held)
    ensures Reframed(events[..i + 1], Regroup(events[i], true, groups, held),
                     posted + Posts(events[i], true, held), Keeps(events[i], true, held))
  {
    assert events[..i + 1][..i] == events[..i];
    var r := Stretches(events[..i]);
    OverGrows(r[|r| - 1], groups[|r| - 1], held, events[i]);
    if Posts(events[i], true, held) != [] {
      JoinedExtend(groups, Posts(events[i], true, held)[0]);
    } else {
      assert groups[|groups| - 1] + [] == groups[|groups| - 1] && posted + [] == posted;
    }
  }

  /** Blocks no longer than a frame, as the audio callback delivers them. */
  predicate ShortBlocks(events: seq<Event>) {
    forall i :: 0 <= i < |events| && events[i].Block? ==> |events[i].samples| <= FRAME
  }

  ghost predicate Tight(events: seq<Event>, groups: seq<seq<seq<Sample>>>) {
    var r := Stretches(events);
    |groups| == |r| && forall i :: 0 <= i < |groups| - 1 ==> |r[i]| < |Flatten(groups[i])| + FRAME
  }

  lemma ShortKeepsTight(events: seq<Event>, i: nat, groups: seq<seq<seq<Sample>>>, posted: seq<seq<Sample>>,
                        held: seq<Sample>)
    requires i < |events| && Reframed(events[..i], groups, posted, held)
    requires Tight(events[..i], groups) && |held| < FRAME && (events[i].Block? ==> |events[i].samples| <= FRAME)
    ensures var talking := Talking(events[..i]);
            && !Throws(events[i], talking, held)
            && |Keeps(events[i], talking, held)| < FRAME
            && Tight(events[..i + 1], Regroup(events[i], talking, groups, held))
  {
    assert events[..i + 1][..i] == events[..i];
  }

  /** With short blocks the frames of a stretch are exactly its cut every 960 samples. */
  lemma TightIsExact(events: seq<Event>, groups: seq<seq<seq<Sample>>>, posted: seq<seq<Sample>>, held: seq<Sample>,
                     i: nat)
    requires Reframed(events, groups, posted, held) && Tight(events, groups) && |held| < FRAME && i < |groups|
    ensures groups[i] == Frames(Stretches(events)[i])
    ensures i == |groups| - 1 ==> held == Rest(Stretches(events)[i])
  {
    var stretch := Stretches(events)[i];
    var rest := if i == |groups| - 1 then held else stretch[|Flatten(groups[i])|..];
    assert Flatten(groups[i]) + rest == stretch;
    OnlyCut(groups[i], rest);
  }

  /** What holds after the first `n` events. */
  ghost predicate SoFar(events: seq<Event>, n: nat, groups: seq<seq<seq<Sample>>>, posted: seq<seq<Sample>>,
                        held: seq<Sample>)
    requires n <= |events|
  {
    && Reframed(events[..n], groups, posted, held)
    && (ShortBlocks(events) ==> Tight(events[..n], groups) && |held| < FRAME)
  }

  lemma TurnKept(events: seq<Event>, i: nat, groups: seq<seq<seq<Sample>>>, posted: seq<seq<Sample>>, held: seq<Sample>)
    requires i < |events| && SoFar(events, i, groups, posted, held)
    ensures var e, talking := events[i], Talking(events[..i]);
            && (ShortBlocks(events) ==> !Throws(e, talking, held))
            && (!Throws(e, talking, held) ==>
                  SoFar(events, i + 1, Regroup(e, talking, groups, held), posted + Posts(e, talking, held),
                        Keeps(e, talking, held)))
    ensures Talking(events[..i + 1]) == if events[i].Ptt? then events[i].active else Talking(events[..i])
  {
    assert events[..i + 1][..i] == events[..i];
    if ShortBlocks(events) { ShortKeepsTight(events, i, groups, posted, held); }
    if events[i].Block? && Talking(events[..i]) {
      if !Throws(events[i], true, held) { SoundKeepsReframed(events, i, groups, posted, held); }
    } else {
      QuietKeepsReframed(events, i, groups, posted, held);
      assert posted + [] == posted;
    }
  }

  /** The promises of `Tap` for short blocks. */
  ghost predicate Exact(events: seq<Event>, groups: seq<seq<seq<Sample>>>, held: seq<Sample>) {
    var r := Stretches(events);
    && |groups| == |r| && held == Rest(r[|r| - 1]) && |held| < FRAME
    && forall i :: 0 <= i < |r| ==> groups[i] == Frames(r[i])
  }

  lemma ShortIsExact(events: seq<Event>, groups: seq<seq<seq<Sample>>>, posted: seq<seq<Sample>>, held: seq<Sample>)
    requires SoFar(events, |events|, groups, posted, held) && ShortBlocks(events)
    ensures Exact(events, groups, held)
  {
    assert events[..|events|] == events;
    forall i | 0 <= i < |groups|
      ensures groups[i] == Frames(Stretches(events)[i]) && (i == |groups| - 1 ==> held == Rest(Stretches(events)[i]))
    {
      TightIsExact(events, groups, posted, held, i);
    }
  }

  method Deliver(processor: SttTapProcessor, event: Event) returns (threw: bool)
    requires processor.Valid()
    modifies processor, processor.buffer
    ensures processor.Valid() && (processor.buffer == old(processor.buffer) || fresh(processor.buffer))
    ensures processor.transmitting == if event.Ptt? then event.active else old(processor.transmitting)
    ensures threw <==> Throws(event, old(processor.transmitting), old(processor.Held()))
    ensures processor.posted
            == old(processor.posted) + Posts(event, old(processor.transmitting), old(processor.Held()))
    ensures !threw ==> processor.Held() == Keeps(event, old(processor.transmitting), old(processor.Held()))
  {
    threw := false;
    match event
    case Ptt(active) => processor.SetTransmitting(active);
    case NoInput => threw := processor.Process(None);
    case Block(samples) => threw := processor.Process(Some(samples));
  }

  /**
   For every sequence of blocks of any size: up to the first call that throws, the messages are 960-sample frames of
   the stretches in order, the present stretch is its frames and what is held, and nothing else is missing but at
   most a frame at the end of each stretch that was cut off.
   */
  method Tap(events: seq<Event>)
    returns (posted: seq<seq<Sample>>, held: seq<Sample>, handled: nat, ghost groups: seq<seq<seq<Sample>>>)
    ensures handled <= |events| && Reframed(events[..handled], groups, posted, held)
    ensures handled < |events| ==> Throws(events[handled], Talking(events[..handled]), held)
    // with blocks of at most a frame no call throws and the cut is exact
    ensures ShortBlocks(events) ==> handled == |events| && Exact(events, groups, held)
  {
    var processor := new SttTapProcessor();
    posted, held, handled, groups := [], [], 0, [[]];
    assert events[..0] == [] && Joined(groups) == [] && Flatten(groups[0]) == [];
    while handled < |events|
      invariant handled <= |events| && processor.Valid() && fresh(processor.buffer)
      invariant processor.transmitting == Talking(events[..handled])
      invariant posted == processor.posted && held == processor.Held()
      invariant SoFar(events, handled, groups, posted, held)
    {
      TurnKept(events, handled, groups, posted, held);
      ghost var regrouped := Regroup(events[handled], processor.transmitting, groups, held);
      var threw := Deliver(processor, events[handled]);
      if threw { return; }
      groups := regrouped;
      posted, held, handled := processor.posted, processor.buffer[..processor.offset], handled + 1;
    }
    if ShortBlocks(events) { ShortIsExact(events, groups, posted, held); }
  }
}
