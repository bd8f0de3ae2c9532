/** The programme records of one channel's guide timeline: the event is
    classified as live or upcoming, the standby chain is emitted only
    for an upcoming event, then come the event itself and the ended block.
    A record stands for one XMLTV `programme` element. */
module Programmes {
  import opened Strings
  import opened Events
  import opened Timeline

  datatype Programme = Programme(
    start: int,
    stop: int,
    channel: string,
    title: string,
    subtitle: Option<string>,
    desc: string,
    categories: seq<string>,
    live: bool)

  /** The event is on air at `now`. */
  predicate IsLive(e: Event, now: int)
    ensures IsLive(e, now) ==> e.start < e.stop
  {
    e.start <= now < e.stop
  }

  /** The event has not started at `now`. */
  predicate IsUpcoming(e: Event, now: int)
    ensures IsUpcoming(e, now) ==> !IsLive(e, now)
  {
    e.start > now
  }

  /** An event is never both live and upcoming; an event the schedule
      query returns is always one of the two. */
  lemma Classification(e: Event, now: int, hoursAhead: nat)
    ensures !(IsLive(e, now) && IsUpcoming(e, now))
    ensures Selected(e, now, hoursAhead) ==> (IsLive(e, now) <==> !IsUpcoming(e, now))
  {
  }

  /** The sub-title: the event's own subtitle, else its league; none when both are empty. */
  function SubtitleOf(e: Event): (r: Option<string>)
    ensures r.None? <==> e.subtitle == "" && e.league == ""
    ensures e.subtitle != "" ==> r == Some(e.subtitle)
    ensures e.subtitle == "" && e.league != "" ==> r == Some(e.league)
  {
    if e.subtitle != "" || e.league != "" then
      Some(if e.subtitle != "" then e.subtitle else e.league)
    else None
  }

  function StatusText(live: bool): string {
    if live then "Status: LIVE NOW" else "Status: Upcoming"
  }

  /** The description's parts: the sport and the league when present, then the status. */
  function DescriptionParts(e: Event, live: bool): (parts: seq<string>)
    ensures 1 <= |parts| <= 3 && parts[|parts| - 1] == StatusText(live)
    ensures |parts| == 1 + (if e.sport != "" then 1 else 0) + (if e.league != "" then 1 else 0)
    ensures e.sport != "" ==> parts[0] == "Sport: " + e.sport
    ensures e.league != "" ==> parts[|parts| - 2] == "League: " + e.league
  {
    (if e.sport != "" then ["Sport: " + e.sport] else [])
    + (if e.league != "" then ["League: " + e.league] else [])
    + [StatusText(live)]
  }

  /** The parts joined with " | ": the status always comes last. */
  function Description(e: Event, live: bool): (d: string)
    ensures var parts := DescriptionParts(e, live); var last := parts[|parts| - 1];
      |last| <= |d| && d[|d| - |last|..] == last
  {
    var parts := DescriptionParts(e, live);
    JoinEndsWithLast(parts, " | ");
    Join(parts, " | ")
  }

  /** The description ends with "Status: LIVE NOW" exactly when the event
      is live, and with "Status: Upcoming" otherwise. */
  lemma DescriptionStatus(e: Event, live: bool)
    ensures var d := Description(e, live);
      |d| >= 16 && d[|d| - 16..] == (if live then "Status: LIVE NOW" else "Status: Upcoming")
    ensures var d := Description(e, live);
      |d| >= 16 && (live <==> d[|d| - 16..] == "Status: LIVE NOW")
  {
    var d := Description(e, live);
    var status := StatusText(live);
    assert |status| == 16 && d[|d| - 16..] == status;
    if !live {
      assert status[8] == 'U';
      assert "Status: LIVE NOW"[8] == 'L';
    }
  }

  /** The categories: "SPORTS", "SPORTS EVENT", then the sport when present. */
  function Categories(e: Event): (r: seq<string>)
    ensures |r| == (if e.sport != "" then 3 else 2)
    ensures r[0] == "SPORTS" && r[1] == "SPORTS EVENT"
    ensures e.sport != "" ==> r[2] == e.sport
  {
    ["SPORTS", "SPORTS EVENT"] + (if e.sport != "" then [e.sport] else [])
  }

  /** A filler block (standby or ended) on a channel: title and description only. */
  function BlockProgramme(b: Block, channel: string): Programme {
    Programme(b.start, b.stop, channel, b.title, None, b.desc, [], false)
  }

  /** The event's own programme, spanning exactly its start and stop. */
  function EventProgramme(e: Event, channel: string, live: bool): Programme {
    Programme(e.start, e.stop, channel, TitleOf(e), SubtitleOf(e), Description(e, live), Categories(e), live)
  }

  /** Filler blocks tagged with a channel, in order. */
  function BlockProgrammes(blocks: seq<Block>, channel: string): (ps: seq<Programme>)
    ensures |ps| == |blocks|
    ensures forall k :: 0 <= k < |ps| ==> ps[k] == BlockProgramme(blocks[k], channel)
  {
    if |blocks| == 0 then []
    else BlockProgrammes(blocks[..|blocks| - 1], channel) + [BlockProgramme(blocks[|blocks| - 1], channel)]
  }

  /** The standby part of a channel's timeline: present only for an
      upcoming event, chained from `now`, never past the event start. */
  function StandbyProgrammes(e: Event, channel: string, now: int): (ps: seq<Programme>)
    ensures |ps| > 0 ==> IsUpcoming(e, now) && ps[0].start == now
    ensures |ps| == if IsUpcoming(e, now) then StandbyCount(e.start, now) else 0
    ensures forall k :: 0 <= k < |ps| ==>
      && ps[k].start < ps[k].stop <= e.start
      && ps[k].channel == channel && ps[k].title == "STAND BY" && !ps[k].live
    ensures forall k :: 0 <= k < |ps| - 1 ==> ps[k].stop == ps[k + 1].start
    ensures |ps| > 0 ==> ps[|ps| - 1].stop == ChainEnd(StandbySpec(e.start, now), now)
  {
    if IsUpcoming(e, now) then BlockProgrammes(StandbySpec(e.start, now), channel) else []
  }

  /** One channel's timeline: standby blocks when the event is upcoming,
      the event itself, then the ended block. */
  function EventTimeline(e: Event, channel: string, now: int): (ps: seq<Programme>)
    ensures |ps| >= 2
    ensures forall k :: 0 <= k < |ps| ==> ps[k].channel == channel
    ensures |ps| > 2 ==> IsUpcoming(e, now)
    ensures var p := ps[|ps| - 2];
      p.start == e.start && p.stop == e.stop && p.title == TitleOf(e) && (p.live <==> IsLive(e, now))
    ensures var p := ps[|ps| - 1];
      p.start == e.stop && p.stop == e.stop + EventEndedSeconds && p.title == "EVENT ENDED" && !p.live
    ensures forall k :: 0 <= k < |ps| - 2 ==> ps[k].title == "STAND BY" && !ps[k].live
  {
    var standby := StandbyProgrammes(e, channel, now);
    var ps := standby + [EventProgramme(e, channel, IsLive(e, now)), BlockProgramme(EndedBlock(e.stop), channel)];
    assert forall k :: 0 <= k < |standby| ==> ps[k] == standby[k];
    ps
  }

  /** The event's own programme carries the sub-title rule, the description
      and the categories of the event. */
  lemma TimelineEventFields(e: Event, channel: string, now: int)
    ensures var ps := EventTimeline(e, channel, now); var p := ps[|ps| - 2];
      && p.subtitle == SubtitleOf(e)
      && p.desc == Description(e, IsLive(e, now))
      && p.categories == Categories(e)
  {
    var ps := EventTimeline(e, channel, now);
    var standby := StandbyProgrammes(e, channel, now);
    var p := EventProgramme(e, channel, IsLive(e, now));
    assert ps == standby + [p, BlockProgramme(EndedBlock(e.stop), channel)];
    assert ps[|ps| - 2] == p;
  }

  /** The status the event's description ends with agrees with its live
      marker. */
  lemma TimelineStatusMatchesMarker(e: Event, channel: string, now: int)
    ensures var ps := EventTimeline(e, channel, now); var p := ps[|ps| - 2];
      |p.desc| >= 16 && (p.live <==> p.desc[|p.desc| - 16..] == "Status: LIVE NOW")
  {
    TimelineEventFields(e, channel, now);
    DescriptionStatus(e, IsLive(e, now));
  }

  /** A channel's timeline marks one programme live, the event's own, when
      the event is live, and none otherwise. */
  lemma TimelineLiveMarker(e: Event, channel: string, now: int)
    ensures var ps := EventTimeline(e, channel, now);
      (exists j :: 0 <= j < |ps| && ps[j].live) <==> IsLive(e, now)
    ensures var ps := EventTimeline(e, channel, now);
      forall i, j :: 0 <= i < |ps| && 0 <= j < |ps| && ps[i].live && ps[j].live ==> i == j
  {
    var ps := EventTimeline(e, channel, now);
    var n := |ps|;
    forall j | 0 <= j < n && ps[j].live
      ensures j == n - 2
    {
      assert !(j < n - 2) && j != n - 1;
    }
    if IsLive(e, now) {
      assert ps[n - 2].live;
    }
  }

  /** Every programme has positive length and none begins before the
      previous one ends: ordered by start and non-overlapping. */
  predicate Ordered(ps: seq<Programme>) {
    && (forall k :: 0 <= k < |ps| ==> ps[k].start < ps[k].stop)
    && (forall k :: 0 <= k < |ps| - 1 ==> ps[k].stop <= ps[k + 1].start)
  }

  /** Each programme ends exactly where the next one begins. */
  predicate Contiguous(ps: seq<Programme>) {
    forall k :: 0 <= k < |ps| - 1 ==> ps[k].stop == ps[k + 1].start
  }

  /** Every neighbouring pair of a timeline is contiguous except possibly
      the last standby block and the event, and a timeline with standby
      blocks starts at `now`. */
  lemma TimelineChained(e: Event, channel: string, now: int)
    ensures var ps := EventTimeline(e, channel, now);
      forall k :: 0 <= k < |ps| - 1 && k != |ps| - 3 ==> ps[k].stop == ps[k + 1].start
    ensures var ps := EventTimeline(e, channel, now);
      |ps| > 2 ==> ps[0].start == now
  {
    var standby := StandbyProgrammes(e, channel, now);
    var ps := EventTimeline(e, channel, now);
    var n := |standby|;
    assert ps == standby + [ps[n], ps[n + 1]];
    forall k | 0 <= k < |ps| - 1 && k != n - 1
      ensures ps[k].stop == ps[k + 1].start
    {
      if k < n - 1 {
        assert ps[k] == standby[k] && ps[k + 1] == standby[k + 1];
      }
    }
    if n > 0 {
      assert ps[0] == standby[0];
    }
  }

  /** A well-formed event's timeline is ordered: every programme has
      positive length and none begins before the previous one ends. */
  lemma TimelineOrdered(e: Event, channel: string, now: int)
    requires e.start < e.stop
    ensures Ordered(EventTimeline(e, channel, now))
  {
    var standby := StandbyProgrammes(e, channel, now);
    var ps := EventTimeline(e, channel, now);
    var n := |standby|;
    assert ps == standby + [ps[n], ps[n + 1]];
    TimelineChained(e, channel, now);
    forall k | 0 <= k < |ps|
      ensures ps[k].start < ps[k].stop
    {
      if k < n { assert ps[k] == standby[k]; }
    }
    if n > 0 {
      assert ps[n - 1] == standby[n - 1];
    }
  }

  /** The timeline has no gap exactly when the event is not upcoming, or
      starts within thirty minutes, or starts within six hours after a
      whole number of thirty-minute blocks. */
  lemma TimelineGapFree(e: Event, channel: string, now: int)
    ensures Contiguous(EventTimeline(e, channel, now))
        <==> (!IsUpcoming(e, now)
              || e.start - now < StandbyBlockSeconds
              || (e.start - now <= MaxStandbySeconds && (e.start - now) % StandbyBlockSeconds == 0))
  {
    var standby := StandbyProgrammes(e, channel, now);
    var ps := EventTimeline(e, channel, now);
    var n := |standby|;
    OnlyGapBeforeEvent(e, channel, now);
    if IsUpcoming(e, now) {
      StandbyChainEnd(e.start, now);
      if n > 0 {
        assert ps[n - 1] == standby[n - 1];
      }
    }
  }

  /** The timeline is contiguous exactly when the last standby block, if
      any, ends where the event begins. */
  lemma OnlyGapBeforeEvent(e: Event, channel: string, now: int)
    ensures var ps := EventTimeline(e, channel, now);
      Contiguous(ps) <==> |ps| == 2 || ps[|ps| - 3].stop == e.start
  {
    var ps := EventTimeline(e, channel, now);
    TimelineChained(e, channel, now);
    if |ps| > 2 && ps[|ps| - 3].stop != e.start {
      assert ps[|ps| - 3].stop != ps[|ps| - 2].start;
    }
  }
}
