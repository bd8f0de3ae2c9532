/** The XMLTV guide assembled from all events: one channel per event in
    source order, then every channel's programme timeline. The document
    is kept as its channel and programme records. */
module Guide {
  import opened Strings
  import opened Events
  import opened Timeline
  import opened Programmes

  datatype Guide = Guide(channels: seq<Channel>, programmes: seq<Programme>)

  /** The guide's display name: "ESPN+ idx: title", then " (league)" when
      the league is present. */
  function DisplayName(idx: nat, e: Event): string {
    "ESPN+ " + NatToString(idx) + ": " + TitleOf(e) + (if e.league != "" then " (" + e.league + ")" else "")
  }

  /** The display name starts with "ESPN+ idx: title", is exactly that
      when the league is empty, and otherwise continues with " (league)". */
  lemma DisplayNameShape(idx: nat, e: Event)
    ensures var d := DisplayName(idx, e); var base := "ESPN+ " + NatToString(idx) + ": " + TitleOf(e);
      && |base| <= |d| && d[..|base|] == base && (d == base <==> e.league == "")
      && (e.league != "" ==> d[|base|..] == " (" + e.league + ")")
  {
    var d := DisplayName(idx, e);
    var base := "ESPN+ " + NatToString(idx) + ": " + TitleOf(e);
    if e.league != "" {
      assert d == base + (" (" + e.league + ")");
      assert |d| > |base|;
    }
  }

  /** The channel list: event `k` (0-based) becomes channel `k + 1`. */
  function GuideChannels(events: seq<Event>): seq<Channel> {
    if |events| == 0 then []
    else
      var n := |events|;
      GuideChannels(events[..n - 1]) + [Channel(ChannelId(n), DisplayName(n, events[n - 1]))]
  }

  /** The programme list: each event's timeline, on its own channel, in source order. */
  function GuideProgrammes(events: seq<Event>, now: int): seq<Programme> {
    if |events| == 0 then []
    else
      var n := |events|;
      GuideProgrammes(events[..n - 1], now) + EventTimeline(events[n - 1], ChannelId(n), now)
  }

  /** One more event adds its channel, and its timeline, at the end. */
  lemma GuideSnoc(events: seq<Event>, i: nat, now: int)
    requires i < |events|
    ensures GuideChannels(events[..i + 1]) == GuideChannels(events[..i]) + [Channel(ChannelId(i + 1), DisplayName(i + 1, events[i]))]
    ensures GuideProgrammes(events[..i + 1], now) == GuideProgrammes(events[..i], now) + EventTimeline(events[i], ChannelId(i + 1), now)
  {
    assert events[..i + 1][..i] == events[..i] && events[..i + 1][i] == events[i];
  }

  lemma {:induction false} GuideChannelsAt(events: seq<Event>)
    ensures |GuideChannels(events)| == |events|
    ensures forall k :: 0 <= k < |events| ==>
      GuideChannels(events)[k] == Channel(ChannelId(k + 1), DisplayName(k + 1, events[k]))
  {
    if |events| > 0 {
      var n := |events|;
      GuideChannelsAt(events[..n - 1]);
    }
  }

  /** The programmes that belong to one channel, in document order. */
  function ProgrammesOn(ps: seq<Programme>, channel: string): seq<Programme> {
    if |ps| == 0 then []
    else (if ps[0].channel == channel then [ps[0]] else []) + ProgrammesOn(ps[1..], channel)
  }

  lemma {:induction false} ProgrammesOnAppend(a: seq<Programme>, b: seq<Programme>, channel: string)
    ensures ProgrammesOn(a + b, channel) == ProgrammesOn(a, channel) + ProgrammesOn(b, channel)
  {
    if |a| == 0 {
      assert a + b == b;
    } else {
      var head := if a[0].channel == channel then [a[0]] else [];
      assert (a + b)[0] == a[0];
      assert (a + b)[1..] == a[1..] + b;
      ProgrammesOnAppend(a[1..], b, channel);
      assert ProgrammesOn(a + b, channel) == head + ProgrammesOn(a[1..] + b, channel);
      assert ProgrammesOn(a, channel) == head + ProgrammesOn(a[1..], channel);
    }
  }

  lemma {:induction false} ProgrammesOnUniform(ps: seq<Programme>, tag: string, channel: string)
    requires forall k :: 0 <= k < |ps| ==> ps[k].channel == tag
    ensures ProgrammesOn(ps, channel) == if tag == channel then ps else []
  {
    if |ps| > 0 {
      ProgrammesOnUniform(ps[1..], tag, channel);
    }
  }

  /** A channel's timeline is all on that channel. */
  lemma TimelineOn(e: Event, tag: string, now: int, channel: string)
    ensures ProgrammesOn(EventTimeline(e, tag, now), channel) == if tag == channel then EventTimeline(e, tag, now) else []
  {
    ProgrammesOnUniform(EventTimeline(e, tag, now), tag, channel);
  }

  /** No programme of the first `|events|` channels belongs to a later channel. */
  lemma {:induction false} NoProgrammesBeyond(events: seq<Event>, now: int, idx: nat)
    requires idx > |events|
    ensures ProgrammesOn(GuideProgrammes(events, now), ChannelId(idx)) == []
  {
    if |events| > 0 {
      var n := |events|;
      NoProgrammesBeyond(events[..n - 1], now, idx);
      ProgrammesOnAppend(GuideProgrammes(events[..n - 1], now), EventTimeline(events[n - 1], ChannelId(n), now), ChannelId(idx));
      ChannelIdInjective(n, idx);
      TimelineOn(events[n - 1], ChannelId(n), now, ChannelId(idx));
    }
  }

  /** Selecting one channel's programmes from the whole guide gives back
      exactly that event's timeline: channels never mix. */
  lemma {:induction false} ChannelTimeline(events: seq<Event>, now: int, k: nat)
    requires k < |events|
    ensures ProgrammesOn(GuideProgrammes(events, now), ChannelId(k + 1)) == EventTimeline(events[k], ChannelId(k + 1), now)
  {
    var n := |events|;
    var prefix := events[..n - 1];
    var last := EventTimeline(events[n - 1], ChannelId(n), now);
    var channel := ChannelId(k + 1);
    assert GuideProgrammes(events, now) == GuideProgrammes(prefix, now) + last;
    ProgrammesOnAppend(GuideProgrammes(prefix, now), last, channel);
    ChannelIdInjective(n, k + 1);
    TimelineOn(events[n - 1], ChannelId(n), now, channel);
    if k == n - 1 {
      NoProgrammesBeyond(prefix, now, k + 1);
      assert ProgrammesOn(last, channel) == last;
    } else {
      ChannelTimeline(prefix, now, k);
      assert prefix[k] == events[k];
      assert ProgrammesOn(last, channel) == [];
    }
  }

  /** The inner loop of generate_xmltv that adds one programme element per
      standby block, in order. */
  method AddBlockProgrammes(programmes: seq<Programme>, blocks: seq<Block>, channelId: string)
    returns (result: seq<Programme>)
    ensures result == programmes + BlockProgrammes(blocks, channelId)
  {
    result := programmes;
    for j := 0 to |blocks|
      invariant result == programmes + BlockProgrammes(blocks[..j], channelId)
    {
      result := result + [BlockProgramme(blocks[j], channelId)];
      assert blocks[..j + 1][..j] == blocks[..j];
    }
    assert blocks[..|blocks|] == blocks;
  }

  /** One pass of generate_xmltv's programme loop: classify the event once
      against `now`, add the standby blocks if it is upcoming, then the
      event and its ended block, all on `channelId`. */
  method AddEventProgrammes(programmes: seq<Programme>, event: Event, channelId: string, now: int)
    returns (result: seq<Programme>)
    ensures result == programmes + EventTimeline(event, channelId, now)
  {
    var isLive := event.start <= now < event.stop;
    var isUpcoming := event.start > now;
    result := programmes;
    if isUpcoming {
      var standby := GenerateStandbyBlocks(event.start, now);
      result := AddBlockProgrammes(result, standby, channelId);
    }
    ghost var standbyProgrammes := StandbyProgrammes(event, channelId, now);
    ghost var tail := [EventProgramme(event, channelId, IsLive(event, now)), BlockProgramme(EndedBlock(event.stop), channelId)];
    assert EventTimeline(event, channelId, now) == standbyProgrammes + tail;
    assert result == programmes + standbyProgrammes;
    result := result + [EventProgramme(event, channelId, isLive)];
    var ended := EndedBlock(event.stop);
    result := result + [BlockProgramme(ended, channelId)];
    assert result == (programmes + standbyProgrammes) + tail;
  }

  /** generate_xmltv: the channel loop, then the programme loop, with
      every event classified against the same generation-time `now`. */
  method GenerateXmltv(events: seq<Event>, now: int) returns (guide: Guide)
    ensures guide.channels == GuideChannels(events)
    ensures guide.programmes == GuideProgrammes(events, now)
  {
    var channels: seq<Channel> := [];
    for i := 0 to |events|
      invariant channels == GuideChannels(events[..i])
    {
      var idx := i + 1;
      channels := channels + [Channel(ChannelId(idx), DisplayName(idx, events[i]))];
      GuideSnoc(events, i, now);
    }

    var programmes: seq<Programme> := [];
    for i := 0 to |events|
      invariant programmes == GuideProgrammes(events[..i], now)
    {
      var idx := i + 1;
      programmes := AddEventProgrammes(programmes, events[i], ChannelId(idx), now);
      GuideSnoc(events, i, now);
    }
    assert events[..|events|] == events;
    guide := Guide(channels, programmes);
  }

  /** The guide lists one channel per event, and each channel carries
      exactly one live-marked programme when its event is live and none
      otherwise. */
  lemma LiveMarkers(events: seq<Event>, now: int, k: nat)
    requires k < |events|
    ensures var ps := ProgrammesOn(GuideProgrammes(events, now), ChannelId(k + 1));
      (exists j :: 0 <= j < |ps| && ps[j].live) <==> IsLive(events[k], now)
    ensures var ps := ProgrammesOn(GuideProgrammes(events, now), ChannelId(k + 1));
      forall i, j :: 0 <= i < |ps| && 0 <= j < |ps| && ps[i].live && ps[j].live ==> i == j
  {
    ChannelTimeline(events, now, k);
    TimelineLiveMarker(events[k], ChannelId(k + 1), now);
  }
}
