# OOTT verification

A Dafny model of the logic at the heart of OOTT, a network device discovery and alert system, with proofs of
what that logic keeps. `dafny verify dfyconfig.toml` checks the whole project.

## What is modelled

**The sighting ledger.** Five scanners (ARP, mDNS, SSDP, DHCP, SNMP) feed one recording pipeline: it reads the
stored device, reconciles the sighting with it, updates or inserts the row, appends de-duplicated events, and
returns the changes worth a notification. API writes and the retention purge work on the same tables,
concurrently. `Ledger` is a state machine whose steps are single SQL statements and single clock readings: a
step of any scanner, of an API handler or of the purge may fall between any two steps of another. Each scanner
handles one sighting at a time; an API write that passed its handler's guard may reach the table any time
later; a purge may run long after its cutoff was computed; a restart drops everything in flight and keeps the
tables. Time is a monotone integer. `LedgerSafety`, `LedgerChanges`, `LedgerPurge` and `LedgerHistory` prove
what holds over every run. `DeviceStore.Store` is the code as it runs when nothing interferes, a class over
the device rows and the event log, proved equal to the functions of `Pipeline`; `Solo` proves that such a call
is exactly a run of the state machine in which only that scanner moves, and gives a closed form for any
history of sightings. `Reports` tells what one such call records and returns from the tables, the sighting,
the clock and the settings alone.

**Time as text.** Every time filter compares RFC 3339 strings. Columns are stored with nine fraction digits,
older rows and most bounds have 0, 3, 6 or 9, and section 5.1 of RFC 3339 promises string order only for equal
fraction lengths. `TimeText` defines the calendar, prints instants digit by digit, and proves when string
order is time order.

**Algorithms.** `Dhcp` (option walk), `Ssdp` (NOTIFY headers), `Snmp` (ARP table decoding, collapse to one
address a device), `SnmpPolls` (what whole and repeated polls do to the tables), `AddressChanges` (when a
change of address is returned and when it is lost), `Network` (MAC and IPv4 text), `NotificationList`
(in-place list diff with its animated mirror), `RateLimit` (fixed windows), `PassiveStatus` (rolling one-hour
count), `Delivery` (grouping, persisting, bounded queue), `Notifying` (ledger and delivery joined: from
returned changes to persisted notifications), `Paging` (list order and pages).

## Findings

- Deduplication is keyed on (MAC, scanner, event type). The comment at `backend/src/events.rs:39-41` and the
  settings table in the repository's own README say "same MAC and IPv4"; the query does not look at the
  address. The model follows the query. A change of address is therefore lost exactly when another change of
  the device was recorded for the scanner within the window (`AddressChanges.OutcomeMoves`); a second move may
  reach the row and be told to nobody (`AddressChanges.SecondMoveLost`).
- An event's creation time is read before the deduplication bound is computed. Two stored events of one key
  can therefore be closer than the window by exactly the time between the two readings
  (`LedgerSafety.StoredEventsApart`); the lag term cannot be dropped (`LedgerHistory.SpacingBoundTight`).
- The purge is invisible to detection exactly when retention is at least the deduplication window
  (`LedgerPurge.PurgeInvisibleIff`): one task runs scanners and purge (`backend/src/main.rs:80-104`), and
  recording an event gives the purge no chance to come between a clock reading and its lookup. If it could,
  retention would have to cover the longest wait as well (`LedgerPurge.PurgeInvisibleWhenPromptIff`).
- `last_seen_to` misses a row that lies exactly on a bound printed with fewer fraction digits
  (`TimeText.UpToMisses`), and differs from the chronological filter in no other case
  (`TimeText.UpToSelectsByTimeIff`). The deduplication lookup misses only rows from before the text form was
  fixed that lie exactly on its bound with fewer than nine digits (`TimeText.DedupSelectsByTimeIff`). The
  purges and the lower-bound filters miss nothing.
- The device handed to notifications is the row as stored, for all rows and sightings, exactly when the
  vendor-to-type table has no entry for the empty vendor (`Devices.ReconcileCommutesIff`).
- The rate limiter lets through at most `2 * limit - 1` calls of a key in any interval of one window's length,
  one less than the usual fixed-window bound, and that is reached for every limit and every window
  longer than a millisecond (`RateLimit.AllowedBounded`, `RateLimit.BoundSharp`).
- The notification list query has no tie-break. Its pages are sure to reach every notification exactly when no
  two of those selected share a creation time (`Paging.NoticePagesIff`, an instance of
  `Paging.PagesReachAllIff`; `Paging.TiesBreakPaging` is the smallest failure). The device list has a tie-break,
  and its pages always partition it (`Paging.DevicePages`).

## Model

| member | source | states |
|---|---|---|
| LedgerSafety.StoredEventsApart | backend/src/events.rs:46-69 | In every state reachable by any interleaving of scanners, API writes, purges and restarts, two stored events of one MAC, scanner and type were created more than the deduplication window apart, less the later one's lag between its two clock readings. |
| LedgerSafety.DedupStep | backend/src/db/device_events.rs:36-61 | Every single step of anyone keeps the log spaced and keeps every checked but not yet inserted event clear of the whole log: the gap between lookup and insert is harmless. |
| LedgerSafety.NewChangesBounded | backend/src/scanners/common/pipeline.rs:60-69 | Over any run, the New changes returned for a MAC, in any letter case, are at most one (none if it was on record at the start) plus the deletions that removed its row. |
| LedgerSafety.NewStep | backend/src/db/devices.rs:217-233 | Every step keeps the balance of New changes returned, pending insertions, deletions and the row's presence; a losing insert contributes nothing. |
| LedgerSafety.OneRowADevice | backend/src/db/devices.rs:217-233 | After any run, from tables in normal form, no two rows are of one device, in whatever letter case it was sighted, and every row is kept under its own MAC without capitals. |
| LedgerSafety.RegistrationFollowsApi | backend/src/db/devices.rs:279-317 | After any run a row's existence, registration and owner are those obtained by replaying only its insertions and the API writes to it, whatever sightings were in flight. |
| LedgerSafety.DeviceTypeKept | backend/src/db/devices.rs:297-307 | From any state, including ones where scanners hold stale rows, no sighting removes a row or overwrites its non-empty device type; only an API write to that device can. |
| LedgerChanges.ChangesFollowEvents | backend/src/events.rs:82-106 | In any run each returned change directly follows the recording of the event of its own MAC, scanner and type, so the window that gates events gates notifications. |
| LedgerPurge.CoveredInvisible | backend/src/retention.rs:10-39 | From any state and for any retention: if every deduplication lookup reaches back no further than the cutoffs purged so far, a run with purges anywhere and the same run without them record the same events, return the same changes in the same order, and leave the same rows and jobs. |
| LedgerPurge.PurgeInvisible | backend/src/retention.rs:10-39 | From any state: retention of at least the deduplication window is enough if no purge takes what a pending lookup may still have to see. |
| LedgerPurge.PurgeInvisibleIff | backend/src/main.rs:80-104 | For the schedules of the code, where one task runs scanners and purge so that no purge separates a bound's clock reading from its lookup, purges are invisible in all runs if and only if retention is at least the deduplication window. |
| LedgerPurge.PurgeInvisibleWhenPromptIff | backend/src/events.rs:46-55 | Were a purge able to come between a clock reading and its lookup, purges would be invisible in all runs of a started backend whose lookups wait at most a given time if and only if retention is at least the window plus that time. |
| LedgerPurge.AgreeStep | backend/src/db/device_events.rs:114-119 | The simulation: one step of anyone keeps a purged and an unpurged ledger equal but for events older than the latest cutoff, as long as lookups stay on this side of it; a purge is a step of the first alone. |
| LedgerPurge.PurgeVisible | backend/src/retention.rs:10-28 | The converse: with less retention than the window, for any device on record, a purge between two of its sightings lets the second heartbeat through, which the purge-free run suppresses. |
| LedgerHistory.RecordedEventsApart | backend/src/events.rs:46-69 | The spacing holds over the whole recorded history, events since purged included, short only of deleted devices. |
| LedgerHistory.ReturnedChangesApart | backend/src/events.rs:82-106 | Over any run, purges included, two changes of one device and type returned for one scanner have their events more than the window apart, less the later one's lag, unless the device was deleted in between. |
| LedgerHistory.SpacingBoundTight | backend/src/events.rs:22-48 | For every lag up to the window a started backend can store two events of one key only the window plus one instant less the lag apart. |
| Ledger.AdvanceFrame | backend/src/main.rs:80-104 | A scanner's statement leaves the other scanners' progress, the pending API writes and the clock alone. |
| Events.SpacedPair | backend/src/db/device_events.rs:49-58 | What the kept spacing means for any two stored events of one key. |
| Events.SinceTwice | backend/src/db/device_events.rs:114-119 | A purge absorbs any earlier purge with an older cutoff. |
| Events.SinceWithout | backend/src/db/devices.rs:412-425 | Purging commutes with deleting a device's events. |
| Devices.ReconcileCommutesIff | backend/src/scanners/common/pipeline.rs:27-58 | For all rows and sightings the device handed to notifications equals the row after the SQL update (but for key spelling and time stamp) if and only if the empty vendor has no device type. |
| Devices.NormalizeFolds | backend/src/utils/network.rs:141-146 | Two spellings of a MAC have one normal form exactly when they differ in ASCII letter case only; the normal form is its own. |
| Reports.DetectReports | backend/src/events/detection.rs:33-60 | A return is detected exactly if the time since the device was last seen reaches the configured absence, and carries that time; then a change exactly if a known address or vendor gave way to another known one, with both devices and which of the two it was. |
| Reports.KnownReports | backend/src/events.rs:89-106 | A recording call for a device on record adds to the log a heartbeat, its return if it was away long enough, and a change if its address or vendor was replaced, in this order, each with the address and vendor it then has, and each unless its own type was recorded for the scanner within the window before the call; exactly the recorded return and change are returned. |
| Reports.ReturnReported | backend/src/events/detection.rs:36-46 | Exactly one return is reported, with the time elapsed, if the device was away long enough and no DeviceBackOnline event of it by the scanner lies within the window; else none. |
| Reports.NewReports | backend/src/scanners/common/pipeline.rs:60-69 | A recording call for an unknown device inserts its row, unregistered and without owner, and records and returns it as new unless a NewDevice event of it by the scanner lies within the window. |
| Solo.SightingIsSoloRun | backend/src/scanners/common/pipeline.rs:25-71 | From any state, a sighting whose statements nothing separates takes the machine to the tables and returned changes that the sequential recording code computes, with the scanner idle again. |
| Solo.OutcomeRows | backend/src/scanners/common/pipeline.rs:25-71 | A recording call changes exactly one row, by one sighting, whatever events it records. |
| Solo.HistoryClosedForm | backend/src/scanners/common/pipeline.rs:25-71 | After any history of sightings of any devices, by any scanners and in any letter case, the row of a sighted device has, of that device's own sightings, the first name ever present, the last non-empty address and vendor, the first non-empty device type, and its registration and owner unchanged; the row of a device not sighted is as it was. |
| DeviceStore.Store.Insert | backend/src/db/devices.rs:217-233 | Fails and changes nothing exactly when the normalised key is taken, else adds exactly that row under it, field by field. |
| DeviceStore.Store.Seen | backend/src/db/devices.rs:279-329 | Changes only the row of that MAC, as the statement assembled from the optional clauses does. |
| DeviceStore.Store.Register | backend/src/db/devices.rs:358-388 | Refines the ledger's Register write. |
| DeviceStore.Store.Update | backend/src/db/devices.rs:333-356 | Refines the ledger's Update write. |
| DeviceStore.Store.Unregister | backend/src/db/devices.rs:390-407 | Refines the ledger's Unregister write. |
| DeviceStore.Store.Delete | backend/src/db/devices.rs:412-429 | Removes the row and exactly that device's events, and reports whether there was a row. |
| DeviceStore.Store.Handle | backend/src/web_server/devices.rs:132-322 | Not found exactly without a row; refused exactly when a registered device is to be registered or an unregistered one updated or unregistered; otherwise the row's registration, owner, type, vendor and name become those requested, every other field and row staying, or row and events are deleted. |
| DeviceStore.Store.RecentDuplicateExists | backend/src/db/device_events.rs:40-61 | The count is positive exactly when some stored event of the same MAC, scanner and type was created at or after the bound. |
| DeviceStore.Store.PurgeOlderThan | backend/src/db/device_events.rs:114-130 | The events at or after the cutoff remain, all of them, each once and in their order, no other does, and the number removed is returned; this refines the ledger's purge. |
| DeviceStore.Store.RecordEvent | backend/src/events.rs:46-69 | Records and reports true exactly when no duplicate lies within the window, else changes nothing. |
| DeviceStore.Store.RecordNewDevice | backend/src/events.rs:75-80 | Refines the sequential specification for a new device: the change is returned exactly when its event is recorded. |
| DeviceStore.Store.DetectKnownDeviceChanges | backend/src/events/detection.rs:33-60 | The list built step by step is the specified list of at most two changes. |
| DeviceStore.Store.RecordKnownDevice | backend/src/events.rs:89-106 | Records the heartbeat, then keeps of the detected changes exactly those whose own event is recorded, each lookup seeing the events recorded before it. |
| DeviceStore.Store.RecordSighting | backend/src/scanners/common/pipeline.rs:25-71 | The whole recording call refines the specification that Solo connects to the state machine. |
| TimeText.FieldsAreChronological | backend/src/db/devices.rs:52-61 | Over the whole Gregorian calendar of years 0000 to 9999, comparing civil fields from the most significant is comparing time. |
| TimeText.YearLength | backend/src/db/devices.rs:52-61 | The calendar is the Gregorian one: a year has 366 days when divisible by 400, or by 4 and not by 100, else 365. |
| TimeText.DayLength | backend/src/db/devices.rs:52-61 | A day has 86400 seconds, an hour 3600, a minute 60. |
| TimeText.PrintShape | backend/src/db/device_events.rs:18 | The stored text has 35 characters, its marks in the places RFC 3339 gives them, nine fraction digits and the offset +00:00. |
| TimeText.PrintOrder | backend/src/db/device_events.rs:117-119 | For any two instants, each printed with any precision that loses nothing, text order is chronological order, except that of two prints of one instant the shorter sorts first; equal texts are the same instant in the same precision. |
| TimeText.PurgeSelectsByTime | backend/src/db/device_events.rs:114-119 | The text filters `<` and `>=` with a shortest-form bound select exactly the rows that time order selects (both purges, `created_from`, `last_seen_from`), rows of any precision included. |
| TimeText.DedupSelectsByTimeIff | backend/src/db/device_events.rs:49-58 | The deduplication lookup with its nine-digit bound selects by time if and only if no row with fewer digits lies on the bound; otherwise it only loses rows. |
| TimeText.UpToSelectsByTimeIff | backend/src/db/devices.rs:57-61 | `last_seen_to` selects by time if and only if every row on its bound has as few digits as the bound; otherwise it only loses rows. |
| TimeText.UpToMisses | backend/src/db/devices.rs:57-61 | With any bound of whole microseconds it misses the row stored at that very instant. |
| Text.LessByBlocks | backend/src/db/device_events.rs:18 | Texts that start with blocks of equal width are ordered by those blocks first. |
| Text.DigitsOrder | backend/src/db/device_events.rs:18 | Zero-padded decimals of one width sort as their numbers. |
| Text.LowerFolds | backend/src/utils/network.rs:144-146 | Two texts have one lower case exactly when they are equal up to ASCII case, by character codes. |
| Text.TrimStrips | backend/src/scanners/ssdp/finder.rs:86-94 | Trimming takes white space off both ends, all of it and nothing else. |
| Dhcp.ParsePacket | backend/src/scanners/dhcp/finder.rs:68-165 | For every buffer the walk stays in bounds and ends. It finds a discovery exactly in an Ethernet client's request whose last option 53 is DISCOVER or REQUEST: the address in bytes 28 to 33; as hint the address in bytes 12 to 15 unless zero, else that of the last four-byte option 50, if any; and the last option 12 that is not blank, stripped. |
| Dhcp.LastDecides | backend/src/scanners/dhcp/finder.rs:125-143 | The value kept is that of an option after which none of its kind carries a value, and is absent only if none does. |
| Dhcp.EncodedFields | backend/src/scanners/dhcp/finder.rs:101-146 | Any list of options, encoded behind any header, among any padding and before any trailer that starts with END, is decoded to exactly that list. |
| Dhcp.TruncatedFields | backend/src/scanners/dhcp/finder.rs:113-122 | Cutting a buffer anywhere yields a prefix of its options. |
| Dhcp.PacketRoundTrip | backend/src/scanners/dhcp/finder.rs:68-165 | The same, told of the options that were encoded: a client request carrying any of them parses exactly when the last message type among them is DISCOVER or REQUEST, to what they and the header say, with a MAC text that reads back as the packet's six bytes. |
| Network.MacRoundTrip | backend/src/utils/network.rs:158-165 | A formatted MAC reads back as its bytes, is already in normal form, and has three characters a byte less one. |
| Network.MacInjective | backend/src/utils/network.rs:144-165 | Distinct hardware addresses never share a key. |
| Network.AnySpelling | backend/src/utils/network.rs:141-165 | A text is a spelling of a hardware address in any letter case exactly if it normalises to the formatted text. |
| Network.IpRoundTrip | backend/src/scanners/snmp/finder.rs:44-50 | A text is read as an address exactly when it is that address printed. |
| Ssdp.ParseAnnouncement | backend/src/scanners/ssdp/finder.rs:60-113 | The line loop finds an announcement exactly in a NOTIFY whose last non-empty NTS is "ssdp:alive" or "ssdp:update", in any letter case, and returns the last non-empty SERVER and all non-empty NT. |
| Ssdp.RenderRoundTrip | backend/src/scanners/ssdp/finder.rs:60-113 | Rendering any NOTIFY header list and parsing it gives its last non-empty SERVER and its non-empty NT values in order, exactly when its last non-empty NTS equals "ssdp:alive" or "ssdp:update" up to ASCII case. |
| Ssdp.NotAlive | backend/src/scanners/ssdp/finder.rs:106-112 | A departure ("ssdp:byebye") or a missing NTS is no announcement. |
| Ssdp.LineEndingsIrrelevant | backend/src/scanners/ssdp/finder.rs:69-71 | Rewriting every LF of any text as CRLF never changes the result. |
| Snmp.ParseArpTable | backend/src/scanners/snmp/finder.rs:124-165 | The row loop returns the pairs of exactly the rows of the right shape, in order. |
| Snmp.RowPairIff | backend/src/scanners/snmp/finder.rs:130-161 | A row is decoded to an address and a MAC exactly if it is the base, any index, the four octets of the address, and the six bytes of the MAC as its value. |
| Snmp.TableRoundTrip | backend/src/scanners/snmp/finder.rs:118-165 | Parsing an encoded neighbour table gives one pair a neighbour, in order, with its address and a MAC that reads back as its bytes. |
| Snmp.ChooseIp | backend/src/scanners/snmp/finder.rs:106-116 | The stored address if it is among the candidates, else the numerically lowest of them. |
| Network.IpNumberOrder | backend/src/scanners/snmp/finder.rs:112-115 | The lowest address is the one lowest in the first octet in which they differ. |
| Snmp.DedupByMac | backend/src/scanners/snmp/finder.rs:67-98 | One pair for each device of the table and no other, strictly ascending by MAC, each with the chosen candidate. |
| Snmp.CollapseIgnoresOrder | backend/src/scanners/snmp/finder.rs:67-98 | Two tables with the same pairs, in any order and multiplicity, collapse to the identical list. |
| SnmpPolls.DecodedNormal | backend/src/scanners/snmp/finder.rs:153-161 | The MACs of a decoded table are already in the normal form under which rows are stored. |
| AddressChanges.DetectMoves | backend/src/events/detection.rs:48-57 | A change of address is detected once and for the sighted device alone, exactly when a non-empty address on record differs from the non-empty one seen. |
| AddressChanges.OutcomeMoves | backend/src/events.rs:89-106 | For every scanner, a recording call returns a change of address exactly if the device moved and no DeviceChanged event of it by that scanner lies within the window, whatever address that event is about. |
| AddressChanges.SecondMoveLost | backend/src/db/device_events.rs:36-50 | From any state in which the device is on record, the scanner idle and no change of it recent: two moves seen by one scanner within one window leave the second address in the row, one change of address returned, and no change event that carries the second address. |
| SnmpPolls.MovesIffAstray | backend/src/scanners/snmp/finder.rs:43-51 | The address a poll chooses for a device is a change exactly when there is a non-empty one on record and the poll does not list it; a listed one is left on record. |
| SnmpPolls.PollSpares | backend/src/scanners/snmp/scanner.rs:44-50 | Recording a poll neither touches the row nor returns a change of address of a device it does not list, nor affects how that device's changes are deduplicated. |
| SnmpPolls.PollEffect | backend/src/scanners/snmp/scanner.rs:34-51 | Recording a whole poll returns exactly one change of address for a device it lists if its non-empty address on record is unlisted and no DeviceChanged event of it by this scanner lies within the window, and none otherwise; afterwards a listed address is on record. |
| SnmpPolls.NoFlapping | backend/src/scanners/snmp/finder.rs:56-66 | From any tables and over any number of polls of one table, each collapsed against what is then on record, the changes of address returned for a listed device are exactly one if the address first on record is unlisted and not deduplicated at the first poll, and none otherwise. |
| NotificationList.NotificationsList.IndexOf | frontend/lib/home/notifications_list.dart:252-253 | The first index with that id, or -1 when there is none. |
| NotificationList.NotificationsList.AnimatedInsert | frontend/lib/home/notifications_list.dart:242-246 | Inserts the row, marks it for highlighting and tells the animated list, all at one index. |
| NotificationList.NotificationsList.RemoveItem | frontend/lib/home/notifications_list.dart:251-262 | Removes the first row with that id from both lists at one index, or does nothing. |
| NotificationList.NotificationsList.RemoveGone | frontend/lib/home/notifications_list.dart:283-288 | Leaves exactly the rows of the page, in their old order, and every removal index is valid when it is sent. |
| NotificationList.NotificationsList.TakeReadStates | frontend/lib/home/notifications_list.dart:290-294 | Every row takes its page's read state and no row moves. |
| NotificationList.NotificationsList.InsertFresh | frontend/lib/home/notifications_list.dart:296-304 | Adds each missing note once, at its own position in the page, unclamped. |
| NotificationList.NotificationsList.Reconcile | frontend/lib/home/notifications_list.dart:280-307 | Leaves exactly the incoming ids, each once and in incoming read state; in incoming order if and only if the survivors kept theirs; the animated list, replayed, ends with the same ids; no index is clamped; exactly the fresh ids are highlighted. |
| NotificationList.MirrorPrefix | frontend/lib/home/notifications_list.dart:240-262 | A replay that succeeds was in range after every one of its edits. |
| RateLimit.InMemoryRateLimitStore.Hit | push_relay/src/rateLimit.ts:56-64 | Moves one key's window by one call and returns its new count. |
| RateLimit.InMemoryRateLimitStore.CheckRateLimit | push_relay/src/rateLimit.ts:31-39 | Counts the call and allows it exactly when the count is within the limit. |
| RateLimit.KeysIndependent | push_relay/src/rateLimit.ts:47-64 | After any interleaving of calls a key's window is the one its own calls alone produce. |
| RateLimit.DecisionIsKeysOwn | push_relay/src/rateLimit.ts:31-64 | After any calls on any keys, whether a call is allowed depends only on the times of its own key's calls. |
| RateLimit.AllowedBounded | push_relay/src/rateLimit.ts:47-52 | With a monotone clock any half-open interval of one window's length holds at most `2 * limit - 1` allowed calls of a key. |
| RateLimit.BoundSharp | push_relay/src/rateLimit.ts:47-52 | For every positive limit and window longer than a millisecond some calls reach that bound. |
| RateLimit.RefusedOnlyWhenBusy | push_relay/src/rateLimit.ts:31-52 | A call is refused only if more than `limit` calls of its key fell within the last window length. |
| PassiveStatus.Status.RecordDiscovery | backend/src/scanners/common/passive_status.rs:43-47 | Keeps the map the one that the history of discoveries and prunings determines. |
| PassiveStatus.Status.TakeSnapshot | backend/src/scanners/common/passive_status.rs:51-60 | With a monotone clock the count is the number of distinct devices discovered in the last hour of the full history. |
| PassiveStatus.SnapshotCounts | backend/src/scanners/common/passive_status.rs:49-60 | However many prunings came before, the pruned map holds exactly the devices discovered within the window. |
| PassiveStatus.RecentIsHeld | backend/src/scanners/common/passive_status.rs:51-53 | No pruning loses a device that is still within the window. |
| Delivery.EveryChangeToldOnce | backend/src/notifications.rs:42-65 | Grouping loses and repeats no change: the notifications are about exactly the changes, as a multiset. |
| Delivery.OneNotePerKind | backend/src/notifications.rs:67-127 | At most one notification a type, about all changes of that type, with a MAC exactly when there is one. |
| Delivery.KindsTold | backend/src/notifications.rs:42-127 | A notification of new devices is about new devices only, one of returns about returns, one of changes about changes, in this order; one about a single device carries its MAC, any other none. |
| Delivery.Notify | backend/src/notifications.rs:42-65 | The sorting loop persists and offers exactly those notifications, in that order. |
| Delivery.NotifyGroup | backend/src/notifications.rs:67-127 | Nothing for no change, else one notification. |
| Delivery.DeliveryQueue.Enqueue | backend/src/notifications/delivery.rs:94-105 | Accepts exactly when the loop runs and fewer than 100 wait, else drops. |
| Delivery.DeliveryQueue.PersistAndDeliver | backend/src/notifications.rs:134-158 | The row is stored before the notification is offered. |
| Delivery.DeliveryQueue.Begin | backend/src/notifications/delivery.rs:27-32 | The loop starts at most once. |
| Delivery.DeliveryQueue.Turn | backend/src/notifications/delivery.rs:34-42 | A turn of the loop is a shutdown, or the receipt and delivery of the oldest notification, as steps of the queue machine. |
| Delivery.SendIsRun | backend/src/notifications.rs:134-158 | Sending with nothing in between is a run of two steps of the queue machine. |
| Delivery.ReachableConserves | backend/src/notifications/delivery.rs:20-45 | In every reachable state the persisted notifications are, as a multiset, those waiting, queued, in flight, delivered, dropped and discarded at shutdown; at most 100 are queued; accepted ones leave in order. |
| Delivery.NothingDroppedIff | backend/src/notifications/delivery.rs:91-105 | A run drops nothing if and only if none of its offers finds the loop not running or 100 notifications waiting. |
| Notifying.ReturnedAreAccounted | backend/src/scanners/common/pipeline.rs:73-78 | With ledger and delivery queue joined, over any interleaving of one process: every change has been returned exactly as often as persisted notifications are about it and scanners still hold it. |
| Notifying.ReturnedAreTold | backend/src/scanners/snmp/scanner.rs:42-51 | Once no scanner holds anything back, the persisted notifications are about exactly the changes that sightings returned, each once. |
| Paging.AnswerUnique | backend/src/db/devices.rs:110-118 | Under an order without ties every arrangement that SQL may answer is the same list. |
| Paging.TieBreakIsStrict | backend/src/db/devices.rs:110-118 | The MAC tie-break leaves no ties, for every column and both directions, with NULL names and letter case as the columns sort them. |
| Paging.OrderAsked | backend/src/db/devices.rs:13-31 | The list comes by the column whose name was asked for in any letter case, else by last sighting, ascending exactly if "asc" was asked for; nameless rows count as before all names; rows alike come by MAC, ascending. |
| Paging.PagesPartition | backend/src/db.rs:74-89 | Pages from separate queries over an unchanged table concatenate to the whole list, without skip or repeat. |
| Paging.DevicePages | backend/src/db/devices.rs:81-173 | So do the pages of the device list for any filter, sort column, direction and page size, and `count_devices` is the list's length. |
| Paging.PagesReachAllIff | backend/src/db.rs:74-89 | For any finite set of rows and any strict weak order: pages of any size, taken from enough queries that each choose any arrangement the order allows, show every row if and only if the order leaves no two rows tied. |
| Paging.NoticePagesIff | backend/src/db/notifications.rs:10-35 | The pages of the notification list, filtered by read state or not, reach every notification if and only if no two of those selected were created at the same time. |
| Paging.TiesBreakPaging | backend/src/db/notifications.rs:31-35 | The smallest failure: of two notifications of one instant, whichever it is, two one-row pages may show one twice and the other never. |

## Left out

- SQLite itself, its connection pool, journal mode and migrations: tables are maps and sequences with a unique
  key, and every statement succeeds. In particular the code records an event when the duplicate check
  itself fails (`backend/src/events.rs:61-62`), and notifies of an event it failed to insert; the model has no failing statement.
- DeviceStore.Store.RecordEvent: one clock reading serves the creation time and the bound; the state machine has both readings, and their lag.
- Notifying.ReturnedAreTold: one process without a restart; a restart loses what scanners hold.
- LedgerChanges.ChangesFollowEvents: the state machine puts a change out as soon as its event is recorded; the code hands all changes of a sighting back together when it ends.
- Solo.HistoryClosedForm: assumes that the vendor-to-type table has no entry for the empty vendor, as the shipped data has none.
- RateLimit.AllowedBounded: assumes a monotone clock and whole milliseconds; a clock that goes back is not covered.
- Name and vendor edits racing a sighting: a sighting that read the row earlier may overwrite both, so nothing is claimed of them.
- The active scanners build all devices of a scan before they record the first; the model stamps a device when its own recording begins. Only the first last-seen time of a new row can tell the difference.
- Vendor lookup by hardware prefix or service hint, with its test for locally administered addresses (`backend/src/scanners/common/enrichment.rs:22-25`): a sighting arrives with its vendor, and the vendor-to-type table is a parameter.
- UTF-8 decoding: a parameter of the DHCP parser; the SSDP model starts from decoded text.
- The retention loop's sleep and the purge of the notification table: the first is any number of purge steps at any time, the second is the same text-time filter on a table no other step reads.
- SnmpPolls.NoFlapping: only SNMP polls touch the tables, and one clock reading serves a whole poll; another scanner that reports a different address does move the device.
- Leap seconds, and the saturation of settings too long for the time library.
- The exact LIKE and equality filters of the device list: any predicate on rows. `get_summary` and the event list (ordered by a unique id last, so it pages like the device list).
- Wording of notifications, the Pushover and push-relay calls, the relay's request validation and dead-token pruning, and its Firestore store, which shares the window function.
- Sockets, ARP probes, the SNMP client and mDNS decoding; HTTP routing, authentication, configuration and logging; Flutter widgets and animation beyond the list diff.
