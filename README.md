# ESPN+ guide and playlist generator, modelled in Dafny

This project models the core of the ESPN+ M3U/XMLTV generator
(`generate_guide.py`). The generator takes the live and upcoming events
returned by the schedule query and writes two artefacts:

- an M3U playlist with one channel per event. Each channel has an
  `#EXTINF` line and a deep link into the companion app.
- an XMLTV guide that lists the same channels. For every channel it gives
  the programme timeline:
  - thirty-minute "STAND BY" filler blocks from generation time toward the
    start of an upcoming event (at most six hours of them);
  - the event itself, marked live when it is on air;
  - a thirty-minute "EVENT ENDED" block after it.

Instants are integer seconds. The guide is kept as its channel and
programme records instead of XML text. Each programme record holds start,
stop, channel, title, optional sub-title, description, categories and the
live marker.

The modules follow the generator's parts:

- `Strings`: an option type, decimal and zero-padded rendering, Python's
  `join`, and character counting.
- `Clock`: the `Z`-suffix normalisation of ISO timestamps, the XMLTV time
  layout `YYYYMMDDHHMMSS +0000` over a broken-down date, and the `HH:MM`
  rendering of an instant.
- `Events`: the event row, its title fallback, its play id, the channel id
  `espnplus{idx}`, and the schedule query's selection filter.
- `Timeline`: `generate_standby_blocks`, written as the source's loop (clamp
  and early exit included) and proved against a specification function;
  `generate_event_ended_block`.
- `Programmes`: classification, sub-title, description and categories, and
  one channel's programme timeline with its ordering and gap properties.
- `Guide`: `generate_xmltv`'s two loops, proved against functions that
  build the channel list and the programme list, and lemmas about
  selecting one channel's programmes.
- `Playlist`: `build_deep_link`, `generate_m3u`'s loop, and the agreement
  between playlist and guide.

The standby chain is modelled as the code writes it:

- The block count is `min(lead, 6 h) / 30 min`, rounded down.
- The clamp of a block's stop to the event start never takes effect.
- The early exit happens only when the capped lead is a whole number of
  blocks.
- So the chain meets the event start exactly when the lead is at most six
  hours and a multiple of thirty minutes (`Timeline.StandbyChainEnd`,
  `Programmes.TimelineGapFree`). Otherwise a gap of under thirty minutes, or
  the part of the lead beyond six hours, stays uncovered before the event.
  The model keeps that gap. The clamp looks like it was meant to fill it,
  but as written it never runs.
- "No gap" means that neighbouring programmes touch. An upcoming event
  less than thirty minutes away gets no standby blocks at all, so the time
  from `now` to its start is uncovered, yet its timeline counts as gap-free.
- `now` is a whole second here. The source's `now` carries microseconds.
  With start times stored to the second, its lead is a whole number of
  blocks, and its chain reaches the start, only when `now` falls on a
  whole second.

A second behaviour also follows the code. An event that ended after the
schedule query ran but before generation time is neither live nor upcoming.
It gets no standby blocks, and its description still reads
"Status: Upcoming", because the status only tests the live flag.

## Model

| member | source | states |
|---|---|---|
| Clock.NormalizeZulu | generate_guide.py:53-54 | a trailing `Z` is replaced by `+00:00` and the rest is kept; any other text is unchanged; the result never ends in `Z` |
| Clock.NormalizeZuluIdempotent | generate_guide.py:53-54 | normalising twice is the same as normalising once |
| Clock.FormatXmltv | generate_guide.py:57-59 | the rendering is 20 characters: 14 digits followed by ` +0000` |
| Clock.FormatThenParse | generate_guide.py:57-59 | reading the 14 digits back gives the same valid date and time |
| Clock.ParseThenFormat | generate_guide.py:57-59 | every text that reads as a valid date renders back to itself, so the layout is a bijection |
| Clock.HourMinute | generate_guide.py:129 | `HH:MM` is five characters with a colon in the middle; the hours are below 24, the minutes below 60, and together they are the instant's UTC time of day truncated to the minute |
| Events.TitleOf | generate_guide.py:168 | the event title, or "Unknown Event" when the title is absent |
| Events.PlayId | generate_guide.py:61-64 | the event's own id, used as the play id (what it promises is stated by `Playlist.PlaylistLinkCarriesPlayId`) |
| Events.ChannelId | generate_guide.py:162 | the id is `espnplus` followed by canonical decimal digits (no leading zeros) that read back as the index |
| Events.ChannelIdInjective | generate_guide.py:162 | two indexes get the same channel id exactly when they are equal |
| Timeline.StandbyDesc | generate_guide.py:129 | "Event starts at HH:MM UTC" for the event start (its shape is stated by `Timeline.StandbyDescText`) |
| Timeline.StandbyDescText | generate_guide.py:129 | the standby description is 25 characters: "Event starts at ", the event start's `HH:MM`, then " UTC" |
| Timeline.StandbyCount | generate_guide.py:104-115 | no blocks when the lead is under thirty minutes (including an event already started); at least one otherwise; never more than 12; the blocks fit in the capped lead and leave less than one block of it uncovered |
| Timeline.StandbySpec | generate_guide.py:114-132 | there are `StandbyCount` blocks; the first starts at `now`; each lasts thirty minutes and starts where the previous one stopped; all lie between `now` and the event start; all are "STAND BY" and quote the event start |
| Timeline.StandbyChainEnd | generate_guide.py:117-135 | the chain ends `count` blocks after `now` and never after the event start; it ends at the event start exactly when the lead is at most six hours and a multiple of thirty minutes |
| Timeline.StandbyWithinLookAhead | generate_guide.py:109-115 | within a look-ahead of at most six hours the cap never applies: the count is the lead in whole blocks, at most two per hour of look-ahead |
| Timeline.GenerateStandbyBlocks | generate_guide.py:96-137 | the loop, with its clamp and its early exit, returns exactly the specified standby chain |
| Timeline.EndedBlock | generate_guide.py:139-149 | "EVENT ENDED" from the event stop, lasting thirty minutes |
| Events.Selected | generate_guide.py:38-43 | the schedule query's filter: the event has not ended by `now` and starts at most `hoursAhead` hours after it (what the filter guarantees is stated by `Programmes.Classification`) |
| Programmes.IsLive | generate_guide.py:180 | live means started and not yet stopped, so a live event has a positive length |
| Programmes.IsUpcoming | generate_guide.py:181 | upcoming means not yet started, so an upcoming event is never live |
| Programmes.Classification | generate_guide.py:180-181 | an event is never both live and upcoming; a selected event is exactly one of the two |
| Programmes.SubtitleOf | generate_guide.py:216-220 | the subtitle when present, else the league; none exactly when both are empty |
| Programmes.DescriptionParts | generate_guide.py:225-232 | `Sport:` when there is a sport, `League:` when there is a league, then the status, in that order |
| Programmes.Description | generate_guide.py:223-233 | the parts joined with " \| ", so the text ends with its last part, the status |
| Programmes.DescriptionStatus | generate_guide.py:232-233 | the joined description ends with "Status: LIVE NOW" exactly when the event is live, and with "Status: Upcoming" otherwise |
| Programmes.Categories | generate_guide.py:235-248 | "SPORTS", "SPORTS EVENT", then the sport only when it is present |
| Programmes.EventProgramme | generate_guide.py:201-248 | the event's own programme with its times, title, sub-title, description, categories and live flag (stated by `Programmes.EventTimeline`, `Programmes.TimelineEventFields`, `Programmes.TimelineStatusMatchesMarker` and `Programmes.TimelineLiveMarker`) |
| Programmes.BlockProgrammes | generate_guide.py:186-198 | one programme per block, in order, each with that block's times, title and description on the channel |
| Programmes.StandbyProgrammes | generate_guide.py:183-198 | standby programmes exist only for an upcoming event; the first starts at `now`; each is a positive-length, non-live "STAND BY" on the channel, chained to the next and ending by the event start |
| Programmes.EventTimeline | generate_guide.py:183-263 | all on the channel; standby programmes only if upcoming; then the event spanning exactly start to stop, live-marked exactly when live; then the ended block from the stop for thirty minutes |
| Programmes.TimelineEventFields | generate_guide.py:201-248 | the event's programme in a timeline carries the event's sub-title rule, its description for the live flag it was classified with, and its categories |
| Programmes.TimelineStatusMatchesMarker | generate_guide.py:206-233 | the event's programme says "Status: LIVE NOW" at the end of its description exactly when it is marked live |
| Programmes.TimelineLiveMarker | generate_guide.py:206-208 | a timeline has a live programme exactly when its event is live, and never more than one |
| Programmes.TimelineChained | generate_guide.py:183-254 | every neighbouring pair of a timeline is contiguous except possibly the last standby block and the event; a timeline with standby blocks starts at `now` |
| Programmes.TimelineOrdered | generate_guide.py:183-254 | for an event whose start precedes its stop, every programme has positive length and none begins before the previous one ends |
| Programmes.OnlyGapBeforeEvent | generate_guide.py:183-254 | the timeline is contiguous exactly when there are no standby blocks or the last one stops at the event start |
| Programmes.TimelineGapFree | generate_guide.py:110-135 | neighbouring programmes touch exactly when the event is not upcoming, or starts within thirty minutes, or starts within six hours after a whole number of blocks (an event under thirty minutes away gets no standby blocks, so `[now, start)` is uncovered although no two programmes are apart) |
| Guide.DisplayName | generate_guide.py:167-170 | "ESPN+ idx: title", then " (league)" when the league is present (its shape is stated by `Guide.DisplayNameShape`) |
| Guide.DisplayNameShape | generate_guide.py:167-170 | the display name starts with "ESPN+ idx: title", is exactly that when the league is empty, and otherwise continues with " (league)" |
| Guide.GuideChannelsAt | generate_guide.py:161-170 | one channel per event, in source order: event `k` gets `espnplus{k+1}` and its display name |
| Guide.GuideSnoc | generate_guide.py:161-174 | one more event appends its own channel and its own timeline at the end |
| Guide.ProgrammesOnAppend | generate_guide.py:173-263 | selecting a channel's programmes distributes over concatenation |
| Guide.TimelineOn | generate_guide.py:173-263 | a channel's timeline is selected whole by its own channel and contributes nothing to another |
| Guide.NoProgrammesBeyond | generate_guide.py:173-174 | the first `n` events put no programme on a later channel |
| Guide.ChannelTimeline | generate_guide.py:173-174 | selecting channel `espnplus{k+1}` from the whole guide gives exactly event `k`'s timeline |
| Guide.AddBlockProgrammes | generate_guide.py:186-198 | the inner loop appends one programme per standby block, in order |
| Guide.AddEventProgrammes | generate_guide.py:176-263 | one pass of the programme loop appends exactly that event's timeline |
| Guide.GenerateXmltv | generate_guide.py:151-263 | the two loops produce exactly the specified channel list and programme list, with every event classified against the same `now` |
| Guide.LiveMarkers | generate_guide.py:206-208 | in the whole guide, each channel has a live-marked programme exactly when its event is live, and at most one |
| Playlist.DeepLink | generate_guide.py:66-68 | the link is the fixed app prefix followed by the play id |
| Playlist.DeepLinkRoundTrip | generate_guide.py:66-68 | the play id read back from a deep link is the one it was built from |
| Playlist.PlaylistLinkCarriesPlayId | generate_guide.py:61-92 | the link on playlist entry `k` reads back as event `k`'s play id, its own id |
| Playlist.ChannelName | generate_guide.py:85-88 | the base name, extended by " (league)" only when the league is present (stated against the guide by `Playlist.ChannelNameMatchesGuide`) |
| Playlist.ChannelNameMatchesGuide | generate_guide.py:85-88 | the playlist's channel name equals the guide's display name |
| Playlist.ExtInf | generate_guide.py:91 | the `#EXTINF` line with the channel id and name as tags, then `,` and the name as title (its fields are stated by `Playlist.ExtInfFields`) |
| Playlist.ExtInfFields | generate_guide.py:91 | the line starts with `#EXTINF:-1 tvg-id="` and the channel id, carries the channel name after `" tvg-name="`, continues with `" tvg-logo="" group-title="ESPN+",`, and ends with `,` followed by the channel name as the title |
| Playlist.Entries | generate_guide.py:75-92 | two lines per event |
| Playlist.M3ULinesAt | generate_guide.py:70-94 | `1 + 2N` lines: the header first, then for event `k` its `#EXTINF` line for `espnplus{k+1}` and its deep link |
| Playlist.PlaylistMatchesGuide | generate_guide.py:75-91 | playlist entry `k` carries the same channel id and name as guide channel `k` |
| Playlist.GenerateM3U | generate_guide.py:70-94 | the loop builds exactly the specified lines, joined with newlines |
| Playlist.PlaylistLineBreaks | generate_guide.py:94 | when ids, titles and leagues hold no line break, the text has exactly `2N` line breaks, so it reads back as `1 + 2N` lines |

## Left out

- `get_live_and_upcoming_events` (SQLite query) is not modelled. Its filter is stated as `Events.Selected` and used as a hypothesis in `Programmes.Classification`.
- XML serialisation, pretty printing, the `lang` attributes and the generator-info attributes are not modelled. The guide is its channel and programme records.
- The conversion from an instant to a calendar date is not modelled. Programmes hold instants; `Clock.FormatXmltv` works on a broken-down date.
- `datetime.now` is a parameter `now`.
- `datetime.fromisoformat` and its failure path are not modelled; only the `Z`-suffix rewrite is.
- Sub-second precision and the float minute arithmetic are not modelled. Lead times are whole seconds and the count uses integer division; for whole seconds this gives the same count. The source's `now` has microseconds, so the gap-free case of `Programmes.TimelineGapFree` applies to it only when `now` is on a whole second.
- Events.TitleOf: rows come from `SELECT *`, so the `title` key is always present and the "Unknown Event" fallback never applies to query results; it models `event.get` on a row without the key. A NULL title is not modelled: the source renders it as "None" in the channel names (the f-strings at generate_guide.py:86 and :170) and as an empty `title` element at :213.
- Time zones are not modelled. Start and stop are taken as UTC instants, which holds when the stored timestamps end in `Z` or `+00:00`. For another offset the source prints the timestamp's own wall-clock fields under the literal `+0000` and `UTC` labels, so "12:00+02:00" is rendered as "12:00 UTC" where the model renders "10:00 UTC". A timestamp without any offset parses to a naive datetime, and comparing it with the aware `now` at generate_guide.py:180 raises a `TypeError` that aborts generation; the model has no such failure.
- Clock.FormatXmltv: `%Y` is modelled as four zero-padded digits; platforms that render years below 1000 without padding are not modelled.
- `main` (argument handling, file checks, file writes, console output, exit codes) is not modelled.
- `serve_out.py` (HTTP server, port choice, host probe) is not part of this model.
- The unused `channel_id` parameters of `generate_standby_blocks` and `generate_event_ended_block` are dropped.
