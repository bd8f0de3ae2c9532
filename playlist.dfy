/** The M3U playlist: a header line, then for each event in source order
    an `#EXTINF` line naming its channel and a deep link that opens the
    event's stream in the companion app. */
module Playlist {
  import opened Strings
  import opened Events
  import Guide

  const Header := "#EXTM3U"
  // The companion app's deep link: scheme, callback path, then the play id query.
  const DeepLinkScheme := "sportscenter://"
  const DeepLinkPath := "x-callback-url/showWatchStream"
  const DeepLinkQuery := "?playID="
  const DeepLinkPrefix := DeepLinkScheme + DeepLinkPath + DeepLinkQuery

  /** build_deep_link: the stream URL for a play id. */
  function DeepLink(playId: string): (link: string)
    ensures |link| == |DeepLinkPrefix| + |playId|
    ensures link[..|DeepLinkPrefix|] == DeepLinkPrefix && link[|DeepLinkPrefix|..] == playId
  {
    DeepLinkPrefix + playId
  }

  /** The play id a deep link carries, if the text is a deep link at all. */
  function PlayIdOfLink(link: string): Option<string> {
    if |link| >= |DeepLinkPrefix| && link[..|DeepLinkPrefix|] == DeepLinkPrefix
    then Some(link[|DeepLinkPrefix|..])
    else None
  }

  /** A deep link leads back to exactly the id it was built from. */
  lemma DeepLinkRoundTrip(playId: string)
    ensures PlayIdOfLink(DeepLink(playId)) == Some(playId)
  {
  }

  /** The playlist's channel name, built as the source builds it: the base
      name, extended by " (league)" only when the league is present. */
  function ChannelName(idx: nat, e: Event): string {
    var name := "ESPN+ " + NatToString(idx) + ": " + TitleOf(e);
    if e.league != "" then name + " (" + e.league + ")" else name
  }

  /** The playlist names every channel exactly as the guide does. */
  lemma ChannelNameMatchesGuide(idx: nat, e: Event)
    ensures ChannelName(idx, e) == Guide.DisplayName(idx, e)
  {
  }

  // The fixed text around the channel id and name on an #EXTINF line.
  const ExtInfHead := "#EXTINF:-1 tvg-id=\""
  const ExtInfName := "\" tvg-name=\""
  const ExtInfTail := "\" tvg-logo=\"\" group-title=\"ESPN+\","

  /** The #EXTINF line: unknown duration, the channel id and name as tags,
      then a comma and the name again as the entry's title. */
  function ExtInf(channelId: string, name: string): string {
    ExtInfHead + channelId + ExtInfName + name + ExtInfTail + name
  }

  /** The line starts with the fixed head and the channel id, carries the
      name as its `tvg-name` tag, then the fixed logo and group tags, and
      ends with a comma followed by the name. */
  lemma ExtInfFields(channelId: string, name: string)
    ensures var line := ExtInf(channelId, name); var nameAt := |ExtInfHead| + |channelId| + |ExtInfName|;
      && |line| == nameAt + |name| + |ExtInfTail| + |name|
      && line[..|ExtInfHead|] == ExtInfHead
      && line[|ExtInfHead|..|ExtInfHead| + |channelId|] == channelId
      && line[|ExtInfHead| + |channelId|..nameAt] == ExtInfName
      && line[nameAt..nameAt + |name|] == name
      && line[nameAt + |name|..|line| - |name|] == ExtInfTail
      && line[|line| - |name| - 1] == ','
      && line[|line| - |name|..] == name
  {
    var line := ExtInf(channelId, name);
    var nameAt := |ExtInfHead| + |channelId| + |ExtInfName|;
    var front := ExtInfHead + channelId + ExtInfName + name + ExtInfTail;
    assert line == front + name;
    assert line == ExtInfHead + (channelId + (ExtInfName + name + ExtInfTail + name));
    assert line == (ExtInfHead + channelId + ExtInfName) + (name + (ExtInfTail + name));
    assert line == (ExtInfHead + channelId + ExtInfName + name) + ExtInfTail + name;
    assert ExtInfTail[|ExtInfTail| - 1] == ',';
    assert line[|line| - |name| - 1] == front[|front| - 1];
  }

  /** The deep link on playlist entry `k` leads back to event `k`'s play id. */
  lemma PlaylistLinkCarriesPlayId(events: seq<Event>, k: nat)
    requires k < |events|
    ensures PlayIdOfLink(M3ULines(events)[2 + 2 * k]) == Some(PlayId(events[k]))
  {
    M3ULinesAt(events);
    DeepLinkRoundTrip(events[k].id);
  }

  /** The two lines of the event at 1-based position `idx`. */
  function EntryLines(idx: nat, e: Event): seq<string> {
    [ExtInf(ChannelId(idx), ChannelName(idx, e)), DeepLink(PlayId(e))]
  }

  /** The entries of all events, in source order. */
  function Entries(events: seq<Event>): (lines: seq<string>)
    ensures |lines| == 2 * |events|
  {
    if |events| == 0 then []
    else
      var n := |events|;
      Entries(events[..n - 1]) + EntryLines(n, events[n - 1])
  }

  function M3ULines(events: seq<Event>): seq<string> {
    [Header] + Entries(events)
  }

  /** The playlist has the header and then two lines per event: event `k`
      (0-based) gets channel `espnplus{k+1}` and a deep link to its id. */
  lemma {:induction false} M3ULinesAt(events: seq<Event>)
    ensures |M3ULines(events)| == 1 + 2 * |events|
    ensures M3ULines(events)[0] == Header
    ensures forall k :: 0 <= k < |events| ==>
      M3ULines(events)[1 + 2 * k] == ExtInf(ChannelId(k + 1), ChannelName(k + 1, events[k]))
    ensures forall k :: 0 <= k < |events| ==>
      M3ULines(events)[2 + 2 * k] == DeepLink(events[k].id)
  {
    EntriesAt(events);
  }

  lemma {:induction false} EntriesAt(events: seq<Event>)
    ensures forall k :: 0 <= k < |events| ==>
      Entries(events)[2 * k] == ExtInf(ChannelId(k + 1), ChannelName(k + 1, events[k]))
      && Entries(events)[2 * k + 1] == DeepLink(events[k].id)
  {
    if |events| > 0 {
      var n := |events|;
      var prefix := events[..n - 1];
      EntriesAt(prefix);
      var prev := Entries(prefix);
      var all := Entries(events);
      assert all == prev + EntryLines(n, events[n - 1]);
      forall k | 0 <= k < n
        ensures all[2 * k] == ExtInf(ChannelId(k + 1), ChannelName(k + 1, events[k]))
        ensures all[2 * k + 1] == DeepLink(events[k].id)
      {
        if k < n - 1 {
          assert prefix[k] == events[k];
          assert all[2 * k] == prev[2 * k] && all[2 * k + 1] == prev[2 * k + 1];
        } else {
          assert all[2 * k] == EntryLines(n, events[n - 1])[0];
          assert all[2 * k + 1] == EntryLines(n, events[n - 1])[1];
        }
      }
    }
  }

  /** Playlist entry `k` and guide channel `k` name the same channel id and
      the same display name. */
  lemma PlaylistMatchesGuide(events: seq<Event>, k: nat)
    requires k < |events|
    ensures |Guide.GuideChannels(events)| == |events| && |M3ULines(events)| == 1 + 2 * |events|
    ensures var ch := Guide.GuideChannels(events)[k];
      M3ULines(events)[1 + 2 * k] == ExtInf(ch.id, ch.displayName)
  {
    M3ULinesAt(events);
    Guide.GuideChannelsAt(events);
    ChannelNameMatchesGuide(k + 1, events[k]);
  }

  /** One round of the playlist loop: appending the #EXTINF line and the
      deep link of event `i` extends the playlist over the first `i` events
      to the playlist over the first `i + 1`. */
  lemma PlaylistStep(events: seq<Event>, i: nat, lines: seq<string>, name: string, link: string)
    requires i < |events| && lines == [Header] + Entries(events[..i])
    requires name == ChannelName(i + 1, events[i]) && link == DeepLink(PlayId(events[i]))
    ensures lines + [ExtInf(ChannelId(i + 1), name)] + [link] == [Header] + Entries(events[..i + 1])
  {
    assert events[..i + 1][..i] == events[..i] && events[..i + 1][i] == events[i];
    assert Entries(events[..i + 1]) == Entries(events[..i]) + EntryLines(i + 1, events[i]);
  }

  /** generate_m3u: the header, then the two lines of each event, joined
      with newlines. */
  method GenerateM3U(events: seq<Event>) returns (text: string)
    ensures text == Join(M3ULines(events), "\n")
  {
    var lines := [Header];
    for i := 0 to |events|
      invariant lines == [Header] + Entries(events[..i])
    {
      var channelNum := i + 1;
      var event := events[i];
      var playId := PlayId(event);
      var deepLink := DeepLink(playId);
      var channelName := "ESPN+ " + NatToString(channelNum) + ": " + TitleOf(event);
      if event.league != "" {
        channelName := channelName + " (" + event.league + ")";
      }
      assert channelName == ChannelName(channelNum, event);
      PlaylistStep(events, i, lines, channelName, deepLink);
      lines := lines + [ExtInf(ChannelId(channelNum), channelName)];
      lines := lines + [deepLink];
    }
    assert events[..|events|] == events;
    text := Join(lines, "\n");
  }

  predicate NoNewline(s: string) {
    '\n' !in s
  }

  lemma ConcatNoNewline(a: string, b: string)
    requires NoNewline(a) && NoNewline(b)
    ensures NoNewline(a + b)
  {
    assert forall x :: x in a + b ==> x in a || x in b;
  }

  lemma NatToStringNoNewline(n: nat)
    ensures NoNewline(NatToString(n))
  {
    var s := NatToString(n);
    assert forall i :: 0 <= i < |s| ==> s[i] != '\n';
  }

  lemma ChannelNameNoNewline(idx: nat, e: Event)
    requires NoNewline(TitleOf(e)) && NoNewline(e.league)
    ensures NoNewline(ChannelName(idx, e))
  {
    NatToStringNoNewline(idx);
    var base := "ESPN+ " + NatToString(idx) + ": " + TitleOf(e);
    ConcatNoNewline("ESPN+ ", NatToString(idx));
    ConcatNoNewline("ESPN+ " + NatToString(idx), ": ");
    ConcatNoNewline("ESPN+ " + NatToString(idx) + ": ", TitleOf(e));
    ConcatNoNewline(base, " (");
    ConcatNoNewline(base + " (", e.league);
    ConcatNoNewline(base + " (" + e.league, ")");
  }

  lemma ExtInfNoNewline(channelId: string, name: string)
    requires NoNewline(channelId) && NoNewline(name)
    ensures NoNewline(ExtInf(channelId, name))
  {
    var a, b, c := ExtInfHead, ExtInfName, ExtInfTail;
    assert NoNewline(a) && NoNewline(b) && NoNewline(c);
    ConcatNoNewline(a, channelId);
    ConcatNoNewline(a + channelId, b);
    ConcatNoNewline(a + channelId + b, name);
    ConcatNoNewline(a + channelId + b + name, c);
    ConcatNoNewline(a + channelId + b + name + c, name);
  }

  lemma DeepLinkNoNewline(playId: string)
    requires NoNewline(playId)
    ensures NoNewline(DeepLink(playId))
  {
    assert NoNewline(DeepLinkScheme) && NoNewline(DeepLinkPath) && NoNewline(DeepLinkQuery);
    ConcatNoNewline(DeepLinkScheme, DeepLinkPath);
    ConcatNoNewline(DeepLinkScheme + DeepLinkPath, DeepLinkQuery);
    ConcatNoNewline(DeepLinkPrefix, playId);
  }

  lemma ChannelIdNoNewline(idx: nat)
    ensures NoNewline(ChannelId(idx))
  {
    NatToStringNoNewline(idx);
    ConcatNoNewline(ChannelPrefix, NatToString(idx));
  }

  lemma EntryLinesNoNewline(idx: nat, e: Event)
    requires NoNewline(e.id) && NoNewline(TitleOf(e)) && NoNewline(e.league)
    ensures NoNewline(ExtInf(ChannelId(idx), ChannelName(idx, e)))
    ensures NoNewline(DeepLink(e.id))
  {
    ChannelNameNoNewline(idx, e);
    ChannelIdNoNewline(idx);
    ExtInfNoNewline(ChannelId(idx), ChannelName(idx, e));
    DeepLinkNoNewline(e.id);
  }

  lemma {:induction false} EntriesNoNewline(events: seq<Event>)
    requires forall k :: 0 <= k < |events| ==>
      NoNewline(events[k].id) && NoNewline(TitleOf(events[k])) && NoNewline(events[k].league)
    ensures forall j :: 0 <= j < |Entries(events)| ==> NoNewline(Entries(events)[j])
  {
    if |events| > 0 {
      var n := |events|;
      EntriesNoNewline(events[..n - 1]);
      EntryLinesNoNewline(n, events[n - 1]);
    }
  }

  lemma M3ULinesNoNewline(events: seq<Event>)
    requires forall k :: 0 <= k < |events| ==>
      NoNewline(events[k].id) && NoNewline(TitleOf(events[k])) && NoNewline(events[k].league)
    ensures forall j :: 0 <= j < |M3ULines(events)| ==> '\n' !in M3ULines(events)[j]
  {
    var entries := Entries(events);
    EntriesNoNewline(events);
    assert NoNewline(Header);
    var lines := M3ULines(events);
    assert lines == [Header] + entries;
    forall j | 0 <= j < |lines|
      ensures NoNewline(lines[j])
    {
      if j > 0 {
        assert lines[j] == entries[j - 1];
      }
    }
  }

  /** When no id, title or league contains a line break, the playlist text
      holds exactly `2 * |events|` line breaks: it reads back as the header
      plus two lines per event. */
  lemma PlaylistLineBreaks(events: seq<Event>)
    requires forall k :: 0 <= k < |events| ==>
      NoNewline(events[k].id) && NoNewline(TitleOf(events[k])) && NoNewline(events[k].league)
    ensures CountChar('\n', Join(M3ULines(events), "\n")) == 2 * |events|
  {
    M3ULinesNoNewline(events);
    JoinCount(M3ULines(events), '\n');
  }
}
