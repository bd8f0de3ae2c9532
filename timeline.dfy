/** The filler blocks around an event on its channel: the chain of
    "STAND BY" blocks from now toward the event start, and the single
    "EVENT ENDED" block after the event stop. Instants are seconds. */
module Timeline {
  import Clock

  // The source's constants, in seconds: thirty-minute standby blocks,
  // at most six hours of standby, a thirty-minute ended block.
  const StandbyBlockSeconds := 1800
  const MaxStandbyHours := 6
  const MaxStandbySeconds := MaxStandbyHours * 3600
  const EventEndedSeconds := 1800

  datatype Block = Block(start: int, stop: int, title: string, desc: string)

  function Min(a: int, b: int): int {
    if a <= b then a else b
  }

  /** "Event starts at HH:MM UTC", quoting the event start. */
  function StandbyDesc(eventStart: int): string {
    "Event starts at " + Clock.HourMinute(eventStart) + " UTC"
  }

  /** The description quotes the event start's UTC time of day. */
  lemma StandbyDescText(eventStart: int)
    ensures var d := StandbyDesc(eventStart);
      |d| == 25 && d[..16] == "Event starts at " && d[16..21] == Clock.HourMinute(eventStart) && d[21..] == " UTC"
  {
  }

  /** How many standby blocks precede an event: the lead time, capped at
      six hours, in whole thirty-minute blocks; none when the event has
      already started. */
  function StandbyCount(eventStart: int, now: int): (n: nat)
    ensures n <= MaxStandbySeconds / StandbyBlockSeconds
    ensures eventStart - now < StandbyBlockSeconds ==> n == 0
    ensures n * StandbyBlockSeconds <= Min(eventStart - now, MaxStandbySeconds) || n == 0
    ensures eventStart - now >= StandbyBlockSeconds ==> n > 0
    ensures eventStart - now > 0 ==> Min(eventStart - now, MaxStandbySeconds) - n * StandbyBlockSeconds < StandbyBlockSeconds
  {
    var lead := eventStart - now;
    if lead <= 0 then 0 else Min(lead, MaxStandbySeconds) / StandbyBlockSeconds
  }

  /** The standby chain the generator emits: full thirty-minute blocks,
      the first starting at `now`, each starting where the previous one
      stopped, none stopping after the event start. */
  function StandbySpec(eventStart: int, now: int): (blocks: seq<Block>)
    ensures |blocks| == StandbyCount(eventStart, now)
    ensures |blocks| > 0 ==> blocks[0].start == now
    ensures forall k :: 0 <= k < |blocks| ==> blocks[k].stop == blocks[k].start + StandbyBlockSeconds
    ensures forall k :: 0 <= k < |blocks| - 1 ==> blocks[k].stop == blocks[k + 1].start
    ensures forall k :: 0 <= k < |blocks| ==> now <= blocks[k].start && blocks[k].stop <= eventStart
    ensures forall k :: 0 <= k < |blocks| ==> blocks[k].title == "STAND BY" && blocks[k].desc == StandbyDesc(eventStart)
  {
    seq(StandbyCount(eventStart, now), k =>
      Block(now + k * StandbyBlockSeconds, now + (k + 1) * StandbyBlockSeconds, "STAND BY", StandbyDesc(eventStart)))
  }

  /** Where a chain of blocks starting at `now` ends (`now` when it is empty). */
  function ChainEnd(blocks: seq<Block>, now: int): int {
    if |blocks| == 0 then now else blocks[|blocks| - 1].stop
  }

  /** The chain ends `count` blocks after now, never after the event start,
      and reaches the event start exactly when the lead time is at most
      six hours and a whole number of blocks. Otherwise a gap is left
      between the last standby block and the event. */
  lemma StandbyChainEnd(eventStart: int, now: int)
    requires now < eventStart
    ensures ChainEnd(StandbySpec(eventStart, now), now) == now + StandbyCount(eventStart, now) * StandbyBlockSeconds
    ensures ChainEnd(StandbySpec(eventStart, now), now) <= eventStart
    ensures ChainEnd(StandbySpec(eventStart, now), now) == eventStart
        <==> eventStart - now <= MaxStandbySeconds && (eventStart - now) % StandbyBlockSeconds == 0
  {
    var blocks := StandbySpec(eventStart, now);
    var n := StandbyCount(eventStart, now);
    if n > 0 {
      assert blocks[n - 1].start == now + (n - 1) * StandbyBlockSeconds;
    }
  }

  /** Under the schedule query's look-ahead window of at most six hours
      the cap never applies: the count is the lead time in whole blocks. */
  lemma StandbyWithinLookAhead(eventStart: int, now: int, hoursAhead: nat)
    requires now < eventStart <= now + hoursAhead * 3600
    requires hoursAhead <= MaxStandbyHours
    ensures StandbyCount(eventStart, now) == (eventStart - now) / StandbyBlockSeconds
    ensures StandbyCount(eventStart, now) <= 2 * hoursAhead
  {
  }

  /** generate_standby_blocks: the source's loop, with its clamp to the
      event start and its early exit once the start is reached. */
  method GenerateStandbyBlocks(eventStart: int, now: int) returns (blocks: seq<Block>)
    ensures blocks == StandbySpec(eventStart, now)
  {
    var timeUntil := eventStart - now;
    if timeUntil <= 0 {
      return [];
    }
    var standbyDuration := Min(timeUntil, MaxStandbySeconds);
    var currentTime := now;
    var blocksNeeded := standbyDuration / StandbyBlockSeconds;
    blocks := [];
    ghost var spec := StandbySpec(eventStart, now);
    for i := 0 to blocksNeeded
      invariant currentTime == now + i * StandbyBlockSeconds
      invariant currentTime < eventStart
      invariant blocks == spec[..i]
    {
      var blockStart := currentTime;
      var blockStop := currentTime + StandbyBlockSeconds;
      if blockStop > eventStart {
        blockStop := eventStart;
      }
      blocks := blocks + [Block(blockStart, blockStop, "STAND BY", StandbyDesc(eventStart))];
      currentTime := blockStop;
      if currentTime >= eventStart {
        assert i + 1 == blocksNeeded;
        break;
      }
    }
    assert blocks == spec;
  }

  /** generate_event_ended_block: thirty minutes starting at the event stop. */
  function EndedBlock(eventStop: int): (b: Block)
    ensures b.start == eventStop && b.stop == eventStop + EventEndedSeconds
    ensures b.title == "EVENT ENDED"
  {
    Block(eventStop, eventStop + EventEndedSeconds, "EVENT ENDED", "This event has concluded")
  }
}
