/** The event records read from the schedule store, and the per-event
    channel identity shared by the playlist and the guide. */
module Events {
  import opened Strings

  /** One schedule row. `title` is None when the row has no title key;
      an empty `sport`, `league` or `subtitle` stands for a missing or
      empty value (the source tests them only for truthiness).
      `start` and `stop` are instants in seconds since the Unix epoch. */
  datatype Event = Event(
    id: string,
    title: Option<string>,
    sport: string,
    league: string,
    subtitle: string,
    start: int,
    stop: int)

  /** The title, defaulting to "Unknown Event" when the key is absent. */
  function TitleOf(e: Event): (t: string)
    ensures e.title.Some? ==> t == e.title.value
    ensures e.title.None? ==> t == "Unknown Event"
  {
    e.title.GetOr("Unknown Event")
  }

  /** The stream identifier a deep link needs: the event's own id. */
  function PlayId(e: Event): string {
    e.id
  }

  const ChannelPrefix := "espnplus"

  /** The guide/playlist channel id of the event at 1-based position `idx`. */
  function ChannelId(idx: nat): (id: string)
    ensures |id| > |ChannelPrefix| && id[..|ChannelPrefix|] == ChannelPrefix
    ensures AllDigits(id[|ChannelPrefix|..]) && ParseNat(id[|ChannelPrefix|..]) == idx
    ensures id[|ChannelPrefix|] == '0' ==> idx == 0
  {
    var id := ChannelPrefix + NatToString(idx);
    assert id[|ChannelPrefix|..] == NatToString(idx);
    ParseNatToString(idx);
    id
  }

  /** Channel ids of different positions never collide. */
  lemma ChannelIdInjective(a: nat, b: nat)
    ensures ChannelId(a) == ChannelId(b) <==> a == b
  {
    if ChannelId(a) == ChannelId(b) {
      assert ChannelId(a)[|ChannelPrefix|..] == NatToString(a);
      assert ChannelId(b)[|ChannelPrefix|..] == NatToString(b);
      NatToStringInjective(a, b);
    }
  }

  datatype Channel = Channel(id: string, displayName: string)

  /** What the schedule query returns: events that have not ended and that
      start no later than `hoursAhead` hours from `now`. */
  predicate Selected(e: Event, now: int, hoursAhead: nat)
  {
    now < e.stop && e.start <= now + hoursAhead * 3600
  }
}
