# Proofs about the GPS HAL and its blob list

A Dafny model of the parts of this repository that share one scarce thing among many clients, and of the caches
and converters those parts rely on, with proofs over every input and every run. Message handlers are atomic steps;
what the modem or the framework answers arrives in later steps. The classes follow the source's classes and are
proved against functions of the state; the lemmas are about those functions.

| files | part of the system |
|---|---|
| `TrackingSessions`, `TrackingMultiplexer`, `TrackingRuns`, `TrackingLives`, `TrackingCommands`, `TrackingAnswers`, `TrackingOverlaps`, `TrackingAdapter` | tracking sessions of many clients folded into the modem's one session |
| `AgpsProtocol`, `AgpsRuns`, `AgpsEffects`, `AgpsPurpose`, `AgpsClasses` | subscribers of the assistance-data connection |
| `Words`, `SvIdCodec` | satellite blacklist, as a list and as six 64-bit masks |
| `BlobOrder`, `BlobCycles`, `BlobSections`, `BlobMarkers` | comparison and order of the blob list's sections |
| `NetworkTable`, `ReportHistory`, `NmeaTokenizer` | caches and parser of `SystemStatus` |
| `SetMap`, `OsObserver`, `ObserverWishes` | subscription indexes and the framework's subscriptions |
| `RealtimeEstimator`, `AdapterArray` | estimate of a fix's time, and the registered adapters of `LocApiBase` |
| `TripBatching`, `TripService` | trips that share one outdoor batch |
| `GeofenceMaps` | the two maps of geofences |
| `SessionIds` | session ids, whose freshness the session and geofence maps rely on |

`dafny verify dfyconfig.toml` checks all of it.

Where the code and its comments disagree, the code is followed:

- `LocUnorderedSetMap::update` is described as returning the values that a key loses; it returns those that it
  keeps (`gps/utils/LocUnorderedSetMap.h:186-199`). `updateSubscription` relies on the description, so after an
  update by a client that holds items the two indexes are no converses; `OsObserver` proves exactly what they are.
  The intersection itself erases from a set while iterating over it; its documented effect is modelled.
- The comparison of `sort-blobs-list.py` orders every section of paths, but not every section that mixes paths with
  bare names. `BlobCycles.TransitiveIff` gives the exact condition for a whole section;
  `BlobOrder.CompareIsKeyOrderIff` says when two entries compare by directory and text.
- An update between two distance-based configurations saves the session only on the second of two replies. An update
  to time-based tracking in between leaves the session in both maps (`gps/gnss/GnssAdapter.cpp:3197-3243`);
  `TrackingOverlaps` proves that this is the only way, and what follows from it.
- A start or update that is faster than the other sessions but not lower in power mode is commanded with the power mode
  of the fastest of them, although another may ask for a lower one (`gps/gnss/GnssAdapter.cpp:3036-3055`);
  `TrackingCommands.StartServesPowerIff` says when.
- A trip whose distance query is answered after the last other trip was stopped is listed without a batch being
  started for it (`gps/batching/BatchingAdapter.cpp:788-855`).
- The comment of the estimator speaks of waiting for a number of fixes after a jump; the jumping fix itself counts as
  the first of them, so the sixth fix of a streak calibrates
  (`gps/core/LocApiBase.cpp:951-975`).
- The first network item of an empty cache is not collated, and a disconnect can lose the type bits of other
  networks; both have their exact conditions in `NetworkTable`.
- `getEvtMask`, types of networks, APN types: masks are kept as the set of their bit numbers, except in
  `SvIdCodec`, where the words, their shifts and their overflow are written out.

## Model

| member | source | states |
|---|---|---|
| `TrackingRuns.EveryRunIsSafe` | `gps/gnss/GnssAdapter.cpp:2954-3435` | In every run of starts, updates, stops, client removals, modem replies, suspensions, modem restarts and changes of the nHz need in which no update overlaps a distance-based restart of its session, the modem's one session runs exactly while a time-based session exists; its interval is at least 100 ms and at most every session's; the flag that suppresses commands is set only while nHz is needed and the modem is at 100 ms |
| `TrackingLives.EveryRunFollowsLives` | `gps/gnss/GnssAdapter.cpp:2954-3362` | In every run, overlaps included, and for every session: which map it is in, with which options, and what it waits for is what its own accepted start, its updates, its stop, its client's removal and the modem's replies to it make of it, one after the other, by an account that mentions neither the other sessions nor the handlers |
| `TrackingLives.StepTurns` | `gps/gnss/GnssAdapter.cpp:2954-3362` | One message or reply takes each session it is for through that turn and leaves every other session's maps, options and pending requests alone; the options are stored with at least 100 ms, and without M4 for more than 480000 ms |
| `TrackingLives.ReplyEffect` | `gps/gnss/GnssAdapter.cpp:3197-3362` | From a safe state, a confirmed stop or a refused start leaves the session in no map; the reply to a switch makes it time-based with the new options; a confirmed second start makes it distance-based with them; any other reply, and every reply for other sessions, changes no entry |
| `TrackingOverlaps.OverlapDoublesIff` | `gps/gnss/GnssAdapter.cpp:3197-3243` | From a safe state, a message lets later modem replies put a session into both maps, if and only if it is an update of a distance-based session to time-based tracking while a restart of it, asked for by an earlier update, is not answered to the end |
| `TrackingOverlaps.DoubledUpdateStrandsTheModem` | `gps/gnss/GnssAdapter.cpp:3197-3216` | Such a session, if it is the only time-based one, is then erased by an update without the modem being stopped |
| `TrackingOverlaps.OverlapsCanStrandTheModem` | `gps/gnss/GnssAdapter.cpp:3155-3245` | A run of eight events in which the modem refuses nothing and ends up running for no session |
| `TrackingRuns.SwitchToTimeKeepsIff` | `gps/gnss/GnssAdapter.cpp:3197-3216` | The switch to time-based tracking keeps the invariant if and only if no distance-based restart of the session is pending |
| `TrackingRuns.OnUpdateKeepsIff` | `gps/gnss/GnssAdapter.cpp:3155-3245` | An update keeps safety if and only if it overlaps no restart, and exactness if and only if it is no slowdown |
| `TrackingRuns.RunsWithoutSlowdownAreExact` | `gps/gnss/GnssAdapter.cpp:3251-3313` | In such a run, if since its start or since the last restart of the sessions no update has slowed the only fastest session without lowering a power mode, the modem runs at exactly the smallest interval asked for, or at 100 ms while nHz is needed |
| `TrackingRuns.StepKeepsIff` | `gps/gnss/GnssAdapter.cpp:2954-3435` | One message of any kind keeps safety if and only if it is not such an overlap, and keeps exactness if and only if it is not such a slowdown |
| `TrackingRuns.RestartStepIsExact` | `gps/gnss/GnssAdapter.cpp:2601-2691` | A suspension, modem restart or change of the nHz need is exact from any safe state |
| `TrackingRuns.OnModemReplyKeeps` | `gps/gnss/GnssAdapter.cpp:3197-3243` | Every reply, successful or not, to the six kinds of pending requests keeps safety and exactness |
| `TrackingMultiplexer.UpdateTimeBasedExactIff` | `gps/gnss/GnssAdapter.cpp:3251-3313` | The slowdown condition for one update: the modem is left exact if and only if nHz is needed, or the session is the only one, or it was not the unique fastest that now asks for no less than the next, or it lowers the power mode |
| `TrackingRuns.SlowdownLeavesTheModemFast` | `gps/gnss/GnssAdapter.cpp:3277-3306` | A run of three messages that ends with the modem at 1 s although nobody asks for less than 5 s |
| `TrackingRuns.RestartIsExact` | `gps/gnss/GnssAdapter.cpp:2659-2691` | After any restart of the sessions the commanded interval and, if every power mode is valid, the commanded power mode are the minima over the sessions, whatever was commanded before |
| `TrackingRuns.OnRemoveClientKeeps` | `gps/gnss/GnssAdapter.cpp:2458-2490` | Removing a client, which stops all its sessions one after the other while more replies are due, keeps the invariant and leaves it no time-based session |
| `TrackingOverlaps.RemovedClientComesBackIff` | `gps/gnss/GnssAdapter.cpp:2458-2490` | Later replies give a removed client a time-based session again, if and only if one of its sessions was on its way from distance-based to time-based tracking |
| `TrackingAnswers.EachRequestIsAnsweredOnce` | `gps/gnss/GnssAdapter.cpp:2954-3362` | Every accepted start, every update and every stop is answered exactly once: at once, riding on a modem request, or by the one reply it leaves pending |
| `TrackingAnswers.EachReplyAnswersIff` | `gps/gnss/GnssAdapter.cpp:2476-2490` | A reply answers the client if and only if its request came from a start, stop or update and not from a client's removal, and is not the first of a distance-based restart, which passes its answer on to the second or loses it when refused |
| `TrackingAnswers.AnswersAreConserved` | `gps/gnss/GnssAdapter.cpp:2954-3362` | In every run without overlaps, and for every session whose client is not removed, the requests made are the answers given, those still due, and one lost for each refused distance-based restart |
| `TrackingMultiplexer.StartMultiplexServes` | `gps/gnss/GnssAdapter.cpp:3007-3060` | A start that finds sessions running leaves the modem no slower than the old sessions and the new one |
| `TrackingMultiplexer.StopMultiplexServes` | `gps/gnss/GnssAdapter.cpp:3368-3416` | A stop leaves the modem serving exactly the sessions that remain, and idle if none does |
| `TrackingMultiplexer.UpdateMultiplexServes` | `gps/gnss/GnssAdapter.cpp:3251-3313` | An update leaves the modem no slower than the other sessions and the updated one, whichever of its branches was taken |
| `TrackingMultiplexer.CommandTakesEffect` | `gps/gnss/GnssAdapter.cpp:218-240` | Whether or not the nHz check suppresses or rewrites a command, afterwards the modem runs no slower than commanded, and at the highest rate when nHz needs it |
| `TrackingCommands.CommandIsFollowed` | `gps/gnss/GnssAdapter.cpp:218-240` | A command is passed on with its interval, or 100 ms while nHz is needed; it is held back if and only if the flag is set; the flag is set afterwards if and only if nHz is needed and it was set or the command asked for more than 100 ms |
| `TrackingCommands.StartCommands` | `gps/gnss/GnssAdapter.cpp:3007-3060` | A further session is told to the modem if and only if it is faster than all or lower in power mode than all: then with a fastest session's options, its own interval if faster and its own power mode if lower |
| `TrackingCommands.UpdateCommands` | `gps/gnss/GnssAdapter.cpp:3251-3313` | An update that changes neither interval nor power mode tells the modem nothing; one of the only session tells its options; any other is told by the rule of a start among the other sessions |
| `TrackingCommands.StopCommands` | `gps/gnss/GnssAdapter.cpp:3368-3416` | A stopped session is told if and only if it was faster than all others or lower than all others: then with a fastest remaining session's options and the least remaining power mode; the last one stops the modem and clears the flag |
| `TrackingCommands.StartServesPowerIff` | `gps/gnss/GnssAdapter.cpp:3036-3055` | Without nHz, the command sent for a start is as low in power mode as every session asks, if and only if the new session is lower than all or the fastest of the others is as low as any |
| `TrackingCommands.StartsCanRaiseThePowerMode` | `gps/gnss/GnssAdapter.cpp:3007-3060` | A run of three starts that leaves the modem in mode M3 although the first session asks for M1 |
| `TrackingCommands.RestartCommands` | `gps/gnss/GnssAdapter.cpp:2659-2691` | A restart tells the modem a fastest session's interval, distance, mode and engines with the power mode and time between measurements of a session with the least power mode |
| `TrackingCommands.SuspensionStops` | `gps/gnss/GnssAdapter.cpp:2642-2657` | In a safe state a suspension leaves the modem idle and the flag clear, and changes nothing else |
| `TrackingCommands.EngineEvents` | `gps/gnss/GnssAdapter.cpp:2601-2657` | A change of the nHz need is stored; it, a suspension and a modem restart change no session, request or answer |
| `TrackingSessions.FastestIsMinimum` | `gps/gnss/GnssAdapter.cpp:3016-3035` | The fold over the sessions finds one whose interval is the smallest among those not skipped |
| `TrackingSessions.LowestPowerIsMinimum` | `gps/gnss/GnssAdapter.cpp:3016-3035` | The same fold finds the smallest power mode |
| `TrackingSessions.HighestPowerIsMinimum` | `gps/gnss/GnssAdapter.cpp:2659-2691` | The restart's fold, in which an invalid mode stands for none yet, finds the smallest valid power mode |
| `TrackingSessions.FastestIsFirst` | `gps/gnss/GnssAdapter.cpp:3016-3035` | Of several fastest sessions the fold takes the options of the first in map order |
| `TrackingSessions.HighestPowerIsFirst` | `gps/gnss/GnssAdapter.cpp:2659-2685` | Of several sessions with the lowest power mode the restart's fold takes the options of the first in map order |
| `TrackingAdapter.GnssAdapter.CheckAndSetSPEToRunforNHz` | `gps/gnss/GnssAdapter.cpp:218-240` | Suppresses the command, or forces 100 ms and sets the flag, as the operation Command says |
| `TrackingAdapter.GnssAdapter.StartTimeBasedTrackingMultiplex` | `gps/gnss/GnssAdapter.cpp:3007-3060` | The fields afterwards and the need for an answer are those of StartMultiplex |
| `TrackingAdapter.GnssAdapter.UpdateTrackingMultiplex` | `gps/gnss/GnssAdapter.cpp:3251-3313` | The fields afterwards and the need for an answer are those of UpdateMultiplex |
| `TrackingAdapter.GnssAdapter.StopTimeBasedTrackingMultiplex` | `gps/gnss/GnssAdapter.cpp:3368-3416` | The fields afterwards and the need for an answer are those of StopMultiplex |
| `TrackingAdapter.GnssAdapter.SaveTrackingSession` | `gps/gnss/GnssAdapter.cpp:2839-2851` | The key is entered into the map its options call for, in key order |
| `TrackingAdapter.GnssAdapter.EraseTrackingSession` | `gps/gnss/GnssAdapter.cpp:2853-2867` | The key leaves the time-based map, or else the distance-based one |
| `TrackingAdapter.GnssAdapter.ProcStartTracking` | `gps/gnss/GnssAdapter.cpp:2954-2998` | The message handler carries out the step Start |
| `TrackingAdapter.GnssAdapter.ProcUpdateTracking` | `gps/gnss/GnssAdapter.cpp:3155-3245` | The message handler carries out the step Update |
| `TrackingAdapter.GnssAdapter.ProcStopTracking` | `gps/gnss/GnssAdapter.cpp:3334-3362` | The message handler carries out the step Stop |
| `TrackingAdapter.GnssAdapter.ProcModemReply` | `gps/gnss/GnssAdapter.cpp:3197-3243` | The reply handlers carry out what their requests left for them |
| `TrackingAdapter.GnssAdapter.StopClientSessions` | `gps/gnss/GnssAdapter.cpp:2458-2490` | The two loops over copied keys carry out the step RemoveClient |
| `TrackingAdapter.GnssAdapter.CheckAndRestartSPESession` | `gps/gnss/GnssAdapter.cpp:2624-2691` | The loop over the sessions carries out Restart |
| `TrackingAdapter.GnssAdapter.UpdateNHzRequirement` | `gps/gnss/GnssAdapter.cpp:6599-6615` | A changed need for nHz restarts the modem's session |
| `TrackingAdapter.GnssAdapter.SuspendSessions` | `gps/gnss/GnssAdapter.cpp:2641-2657` | The modem is stopped and the flag cleared if a time-based session exists |
| `TrackingAdapter.GnssAdapter.HandleEngineUp` | `gps/gnss/GnssAdapter.cpp:2567-2622` | After a modem restart all sessions are commanded again |
| `AgpsRuns.EveryRunIsSound` | `gps/gnss/Agps.cpp:73-283` | In every run, modem restarts included: handles are unique, a released machine has no subscribers, in ACQUIRED every active subscriber has been told open-success, in PENDING and RELEASING no active one has; each handle's callbacks are legal: once listed it hears open-success any number of times and then one close, or one open-failure and only if it was never granted; and requests and endings of the data connection alternate |
| `AgpsRuns.EveryRunIsConserved` | `gps/gnss/Agps.cpp:289-430` | In every run, times listed = closes + open-failures + drops + 1 if still listed, for every handle; and connection requests = releases + denials + losses + 1 if the state is PENDING or ACQUIRED |
| `AgpsRuns.ReleasesAreSeparated` | `gps/gnss/Agps.cpp:289-308` | Between two releases of the connection there is a request for it |
| `AgpsRuns.RunsWithoutRestartAreWanted` | `gps/gnss/Agps.cpp:432-443` | Without a modem restart, PENDING and ACQUIRED imply an active subscriber and RELEASING implies a non-empty list |
| `AgpsRuns.StepKeepsWantedIff` | `gps/gnss/Agps.cpp:495-506` | One event keeps that if and only if it is not a modem restart outside RELEASED, which empties the list and leaves the state |
| `AgpsRuns.SubscribeDelivers` | `gps/gnss/Agps.cpp:73-107` | A subscription is listed and told what its state promises: open-success at once in ACQUIRED, nothing yet otherwise |
| `AgpsRuns.UnsubscribeDelivers` | `gps/gnss/Agps.cpp:109-171` | An unsubscription closes the subscriber or sets it inactive until the close, and gives up the connection when nobody active is left |
| `AgpsRuns.GrantedDelivers` | `gps/gnss/Agps.cpp:173-194` | A grant reaches exactly the active subscribers of a pending connection |
| `AgpsRuns.FinishReleasingDelivers` | `gps/gnss/Agps.cpp:196-283` | When a release is over, those who waited for it are closed, and the connection is asked for again if others came meanwhile |
| `AgpsRuns.EndOfConnectionDelivers` | `gps/gnss/Agps.cpp:207-278` | A loss closes and a denial refuses every subscriber, each exactly once |
| `AgpsEffects.GrantEffect` | `gps/gnss/Agps.cpp:173-194` | A grant makes a pending machine hold the connection with the same subscribers, and tells open-success once to each active subscriber and to nobody else; in any other state it changes nothing |
| `AgpsEffects.DenialEffect` | `gps/gnss/Agps.cpp:243-283` | A refusal ends a pending request: nobody is listed any more, and each subscriber hears open-failure exactly once; while releasing it ends the release; otherwise it changes nothing |
| `AgpsEffects.LossEffect` | `gps/gnss/Agps.cpp:196-241` | A loss ends a held connection: nobody is listed any more, and each subscriber hears the close exactly once; while releasing it ends the release; otherwise it changes nothing |
| `AgpsEffects.ReleaseOverEffect` | `gps/gnss/Agps.cpp:220-241` | When a release is over the inactive subscribers are gone, each told the close once; the active ones stay and the connection is asked for once more, if there are any |
| `AgpsEffects.RequestEffect` | `gps/gnss/Agps.cpp:73-107` | A request appends a new active subscriber unless the handle is listed, asks for the connection if and only if there was none, and is answered open-success at once if and only if it is held |
| `AgpsEffects.ReleaseEffect` | `gps/gnss/Agps.cpp:109-171` | A release takes the handle off and tells it the close once, or sets it inactive if it waits; the connection is given back once if and only if it was held or asked for and nobody active is left |
| `AgpsEffects.IdleReleaseEffect` | `gps/gnss/Agps.cpp:111-118` | Without a connection, or for a handle that is not listed, a release changes no list and no state; a listed one still hears the close |
| `AgpsEffects.RestartEffect` | `gps/gnss/Agps.cpp:495-506` | A modem restart empties the list without telling anyone and keeps the state |
| `AgpsClasses.AgpsStateMachine.NotifyAllSubscribers` | `gps/gnss/Agps.cpp:310-343` | The loop that erases while it walks tells exactly the addressed subscribers, in list order, and deletes exactly those when asked to |
| `AgpsClasses.AgpsStateMachine.AddSubscriber` | `gps/gnss/Agps.cpp:392-411` | A handle is appended unless it is listed already |
| `AgpsClasses.AgpsStateMachine.DeleteSubscriber` | `gps/gnss/Agps.cpp:413-430` | Every entry of the handle is erased and the others keep their order |
| `AgpsClasses.AgpsStateMachine.AnyActiveSubscribers` | `gps/gnss/Agps.cpp:432-442` | True if and only if some listed subscriber is not inactive |
| `AgpsClasses.AgpsStateMachine.GetSubscriber` | `gps/gnss/Agps.cpp:465-478` | The first entry of the handle, found if and only if the handle is listed |
| `AgpsClasses.AgpsStateMachine.DropAllSubscribers` | `gps/gnss/Agps.cpp:495-506` | The list is emptied without callbacks and the state kept |
| `AgpsClasses.AgpsStateMachine.ProcessSubscribe` | `gps/gnss/Agps.cpp:73-107` | The handler carries out Subscribe |
| `AgpsClasses.AgpsStateMachine.ProcessUnsubscribe` | `gps/gnss/Agps.cpp:109-171` | The handler carries out Unsubscribe |
| `AgpsClasses.AgpsStateMachine.ProcessGranted` | `gps/gnss/Agps.cpp:173-194` | The handler carries out Granted |
| `AgpsClasses.AgpsStateMachine.ProcessReleased` | `gps/gnss/Agps.cpp:196-241` | The handler carries out ConnectionReleased |
| `AgpsClasses.AgpsStateMachine.ProcessDenied` | `gps/gnss/Agps.cpp:243-283` | The handler carries out ConnectionDenied |
| `AgpsClasses.AgpsManager.CreateAgpsStateMachines` | `gps/gnss/Agps.cpp:514-535` | Each machine is created once, new and released, if its type is wanted and the device can |
| `AgpsPurpose.ConfiguredMask` | `gps/gnss/Agps.cpp:568-578` | A request keeps its APN types unless it is an emergency request with the emergency network off, which then asks for SUPL and not for the emergency type |
| `AgpsPurpose.ConfigurationKeepsTheMachine` | `gps/gnss/Agps.cpp:537-580` | The switched-off emergency network turns emergency requests into plain ones and never moves a request to the other machine |
| `AgpsPurpose.StepKeepsNamesIff` | `gps/gnss/Agps.cpp:585-596` | While the connection is held the machine names the type and APN types it was asked for with, if and only if no request of another purpose arrives meanwhile |
| `AgpsPurpose.GivesBackWhatItAskedFor` | `gps/gnss/Agps.cpp:289-308` | As long as it does, a release names what the request named |
| `AgpsPurpose.AnotherTypeMayBeGivenBack` | `gps/gnss/Agps.cpp:289-308` | Otherwise it may not: a connection asked for as SUPL is given back as emergency SUPL after two subscriptions of the two types |
| `AgpsPurpose.CallsAreLogged` | `gps/gnss/Agps.cpp:73-171` | The calls to the framework are the requests and releases of the machine's log |
| `AgpsRuns.RequestActivatesIff` | `gps/gnss/Agps.cpp:392-411` | A request makes its handle active, if and only if the handle does not wait, inactive, for the close |
| `AgpsClasses.AgpsManager.RequestATL` | `gps/gnss/Agps.cpp:563-597` | Exactly one machine takes the request, as its next event, and names the request's type and APN types from then on, and the other is untouched; without a machine the request is refused at once |
| `AgpsClasses.AgpsManager.ReleaseATL` | `gps/gnss/Agps.cpp:599-625` | The machine that lists the handle takes the release, the AGNSS one first |
| `AgpsClasses.AgpsManager.ReportAtlOpenSuccess` | `gps/gnss/Agps.cpp:627-646` | The machine of the type takes the grant |
| `AgpsClasses.AgpsManager.ReportAtlOpenFailed` | `gps/gnss/Agps.cpp:648-654` | The machine of the type takes the denial |
| `AgpsClasses.AgpsManager.ReportAtlClosed` | `gps/gnss/Agps.cpp:656-662` | The machine of the type takes the loss |
| `AgpsClasses.AgpsManager.HandleModemSSR` | `gps/gnss/Agps.cpp:664-675` | Both machines drop their subscribers |
| `SvIdCodec.MasksRoundTrip` | `gps/gnss/GnssAdapter.cpp:1739-1929` | For all six 64-bit masks, the all-ones mask and the split SBAS range included, encoding the decoded list on cleared masks gives the masks back |
| `SvIdCodec.BitsAreSatellites` | `gps/gnss/GnssAdapter.cpp:1739-1841` | In the masks of a list a satellite's bit, by the id it has in the interface, is set if and only if the list names that id or, by 0, its constellation |
| `SvIdCodec.SatellitesAreBits` | `gps/gnss/GnssAdapter.cpp:1843-1929` | The list of the masks names exactly the ids of the set bits; 0 alone for a full mask, except for SBAS |
| `SvIdCodec.ListsRoundTrip` | `gps/gnss/GnssAdapter.cpp:1739-1929` | For every encodable list, the list decoded from its masks blacklists exactly the same satellites |
| `SvIdCodec.EntriesRoundTrip` | `gps/gnss/GnssAdapter.cpp:1739-1929` | For lists of in-range satellites that cover no constellation completely, the decoded list has exactly the same entries |
| `SvIdCodec.DecodeDistinct` | `gps/gnss/GnssAdapter.cpp:1891-1929` | No decoded list holds an entry twice |
| `SvIdCodec.EncodeSetsExactly` | `gps/gnss/GnssAdapter.cpp:1756-1821` | A bit of a mask is set if and only if it was set before or some entry maps to it: its own bit, or all bits for satellite id 0 |
| `SvIdCodec.DecodeBlacklistsExactly` | `gps/gnss/GnssAdapter.cpp:1843-1889` | A decoded list blacklists exactly the satellites whose bits are set |
| `SvIdCodec.ConvertToGnssSvIdConfig` | `gps/gnss/GnssAdapter.cpp:1739-1841` | The loop computes Encode, and reports whether the list was empty or any mask is set |
| `SvIdCodec.ConvertGnssSvIdMaskToList` | `gps/gnss/GnssAdapter.cpp:1891-1929` | The shift loop ends and appends the entries of the set bits in order, or the one entry for all |
| `SvIdCodec.ConvertFromGnssSvIdConfig` | `gps/gnss/GnssAdapter.cpp:1843-1889` | The list is the concatenation of the six constellations' entries |
| `SvIdCodec.BlacklistSettings.ResendAfterRestart` | `gps/gnss/GnssAdapter.cpp:1488-1499` | What is sent to the modem after its restart, encoded from the kept list, is the configuration that was last set |
| `SvIdCodec.BlacklistSettings.GnssUpdateSvConfig` | `gps/gnss/GnssAdapter.cpp:5981-6023` | A new configuration is kept in list form |
| `BlobOrder.CompareIsKeyOrderIff` | `sort-blobs-list.py:14-45` | For all non-empty entries the comparison equals the order by directory, end of text last, and then by full text, if and only if neither entry is a slash-free name that the other continues with a character below the slash |
| `BlobMarkers.MarkerIsDisregarded` | `sort-blobs-list.py:19-22` | A marker in front of an entry without one changes no comparison, on either side |
| `BlobMarkers.OneMarkerGoes` | `sort-blobs-list.py:19-22` | An entry with one more marker compares equal to it if and only if it had none before |
| `BlobMarkers.MarkersDoNotSort` | `sort-blobs-list.py:14-45` | Taking off any of its markers leaves a section exactly as sorted as it was |
| `BlobMarkers.SortingDisregardsMarkers` | `sort-blobs-list.py:14-45` | Sorting a section and then taking off all markers gives what taking them off and then sorting gives |
| `BlobSections.CompareIsAntisymmetric` | `sort-blobs-list.py:14-45` | Exchanging two entries negates the result, and only entries equal up to the leading marker compare as equal |
| `BlobCycles.TransitiveIff` | `sort-blobs-list.py:14-45` | On a section, empty entries included, the comparison is transitive, if and only if no name in it is overrun by one entry while another lies below the directory of that name |
| `BlobCycles.OverrunFromBelowCycles` | `sort-blobs-list.py:14-45` | Three such entries compare in a circle |
| `BlobSections.CompareIsTransitive` | `sort-blobs-list.py:14-45` | In particular it is transitive on entries none of which overruns another |
| `BlobSections.PathsAreComparable` | `sort-blobs-list.py:14-45` | Entries that contain a slash never overrun each other, so on all of them the comparison is a total preorder |
| `BlobSections.NamesAreTransitive` | `sort-blobs-list.py:24-26` | Without any slash it is a total preorder as well |
| `BlobSections.OverrunsCanCycle` | `sort-blobs-list.py:14-45` | A mixed section can have no order: three entries that compare in a circle |
| `BlobSections.SubtreesAreContiguousIff` | `sort-blobs-list.py:60-63` | In a sorted section every directory's subtree is one contiguous block, if and only if no name is overrun by one entry while a path lies in or below the directory of that name |
| `BlobSections.PathsAreContiguous` | `sort-blobs-list.py:60-63` | Sections of entries that all contain a slash are ordered, and when sorted every subtree is contiguous |
| `BlobSections.AdjacentIsSorted` | `sort-blobs-list.py:60-63` | On a section that the comparison orders, neighbours in order mean all entries in order |
| `BlobSections.SubdirectoriesComeFirst` | `sort-blobs-list.py:60-63` | In any sorted section the entries of subdirectories stand before the directory's own files |
| `BlobSections.SortedSectionIsUnique` | `sort-blobs-list.py:60-63` | Two sorted arrangements of the same entries are the same up to the markers, whatever algorithm sorted them |
| `NetworkTable.EveryRunRefines` | `gps/core/SystemStatus.h:514-586` | Over every run of connects and disconnects the newest cached table stays packed with distinct handles and holds exactly the pairs of a set with room for ten, under add-if-new-and-room and remove-exact-pair, pushed or not |
| `NetworkTable.EveryRunFromEmptyRefines` | `gps/core/SystemStatus.cpp:1354-1372` | The same from an empty cache, if the first item is a connect or carries no handle |
| `NetworkTable.InsertRefines` | `gps/core/SystemStatus.h:530-540` | Connecting adds the pair if and only if the handle is known, new, and finds room |
| `NetworkTable.RemoveRefines` | `gps/core/SystemStatus.h:541-568` | Disconnecting removes exactly that pair and leaves the table packed |
| `NetworkTable.SetItemRefines` | `gps/core/SystemStatus.cpp:1354-1372` | Also when the collated item equals the newest one and is not pushed, the newest table is the updated set |
| `NetworkTable.FirstItemRefinesIff` | `gps/core/data-items/DataItemConcreteTypesBase.h:283-304` | The first item of an empty cache is pushed as constructed: its table is the set's if and only if it is a connect or carries no handle |
| `NetworkTable.DisconnectKeepsTypesIff` | `gps/core/SystemStatus.h:570-574` | A disconnect keeps the types mask equal to the types in the table if and only if no other handle of the type remains or the table holds no other type |
| `NetworkTable.ConnectKeepsTypesIff` | `gps/core/SystemStatus.h:528-540` | A connect keeps the mask equal to the types in the table if and only if the handle enters the table or its type is there already |
| `NetworkTable.RunsKeepTypes` | `gps/core/SystemStatus.h:514-575` | In every run without items that misstate the mask in one of those ways, the newest mask is the union of the types in the newest table |
| `NetworkTable.EveryRunKeepsName` | `gps/core/SystemStatus.h:523-526` | Over every run the newest access point name is that of the last mobile item, or of the first other item while none was stated |
| `NetworkTable.ItemIsCachedIff` | `gps/core/SystemStatus.cpp:1354-1372` | The collated item is pushed, dropping the oldest of five, if and only if it differs from the newest in its connection, name or table |
| `NetworkTable.NetworkInfo.constructor` | `gps/core/data-items/DataItemConcreteTypesBase.h:283-304` | Slot 0 holds the handle, connected or not, and the others are free |
| `NetworkTable.NetworkInfo.AddHandle` | `gps/core/SystemStatus.h:530-540` | The loop over the array carries out Insert |
| `NetworkTable.NetworkInfo.RemoveHandle` | `gps/core/SystemStatus.h:541-568` | The loop over the array carries out Remove and counts the other handles of the type |
| `NetworkTable.NetworkInfo.Collate` | `gps/core/SystemStatus.h:514-586` | The item's fields and array afterwards are the collated item's; the item it was collated with is untouched |
| `ReportHistory.ReportIsLastFive` | `gps/core/SystemStatus.cpp:1354-1381` | After any sequence of reported and default items the report is the last five of the groups that remain when ignored items are dropped and equal neighbours are collapsed into the first of them, stamped with the last one's report time |
| `ReportHistory.NewestIsLatest` | `gps/core/SystemStatus.cpp:1384-1392` | The newest item has the content and the report time of the latest arrival that was not ignored |
| `ReportHistory.UpdateIsAnnouncedIff` | `gps/core/SystemStatus.cpp:1354-1372` | After any history, the return value is true if and only if the item is not to be ignored and differs from the last one kept, which is when it starts a new group |
| `ReportHistory.SystemStatusReport.SetIteminReport` | `gps/core/SystemStatus.cpp:1354-1372` | Drops, restamps or pushes, and says whether it pushed, as SetItem does |
| `ReportHistory.SystemStatusReport.SetDefaultIteminReport` | `gps/core/SystemStatus.cpp:1374-1381` | Pushes without comparing and keeps at most five |
| `NmeaTokenizer.Tokenize` | `gps/core/SystemStatus.cpp:56-84` | No field and no remainder holds a comma, and the fields, each with a comma, followed by the remainder are the text with its first star read as a comma; without a star, or if the text is no debug sentence, there are no fields |
| `NmeaTokenizer.FieldsAreDetermined` | `gps/core/SystemStatus.cpp:69-84` | No other fields and remainder satisfy that contract |
| `OsObserver.StepKeepsConverseIff` | `gps/core/SystemStatusOsObserver.cpp:151-200` | One request keeps the two indexes converses without empty entries, if and only if it is not an update by a client that holds items already |
| `OsObserver.UpdateLists` | `gps/core/SystemStatusOsObserver.cpp:155-180` | What an update does: the client is listed afterwards for exactly the items that are in one of its old and new sets and not in both |
| `OsObserver.UpdateStrands` | `gps/core/SystemStatusOsObserver.cpp:155-180` | So an item dropped by an update still lists the client after the client has unsubscribed from everything |
| `OsObserver.RunsWithoutReupdatesAreConverse` | `gps/core/SystemStatusOsObserver.cpp:105-284` | In every run without such an update the indexes are converses |
| `OsObserver.StepStaysSyncedIff` | `gps/core/SystemStatusOsObserver.cpp:112-124` | One request keeps the framework's subscribed set equal to the listed items, if and only if it does not merely request data of an item nobody lists yet |
| `OsObserver.RunsWithoutRequestsAreSynced` | `gps/core/SystemStatusOsObserver.cpp:105-284` | In every run without such a request, updates included, the framework hears of every listed item and of no other |
| `OsObserver.AttachSyncs` | `gps/core/SystemStatusOsObserver.cpp:62-89` | Setting the subscription object brings the framework up to date from any state |
| `OsObserver.FrameworkServesClients` | `gps/core/SystemStatusOsObserver.cpp:105-284` | In runs without either, the framework is subscribed to an item if and only if some client wants it |
| `ObserverWishes.RunsListWishes` | `gps/core/SystemStatusOsObserver.cpp:105-284` | In every run, attached or not and with any updates, a client is listed for exactly the items that its own requests add up to, and an item's list names exactly the clients that the requests leave on it, both computed from the list of events alone |
| `ObserverWishes.StepLists` | `gps/core/SystemStatusOsObserver.cpp:105-284` | Each request adds and removes exactly the client-item pairs it names, in both indexes, whatever they hold before |
| `ObserverWishes.StepCalls` | `gps/core/SystemStatusOsObserver.cpp:115-284` | An attached framework is told to subscribe to exactly the items that got their first client and to unsubscribe from exactly those that lost their last; a request for data asks for its list instead |
| `ObserverWishes.FrameworkHearsNames` | `gps/core/SystemStatusOsObserver.cpp:105-284` | If no item is only requested, an attached framework has heard of exactly the items whose lists the requests leave somebody on |
| `ObserverWishes.FrameworkHearsWishes` | `gps/core/SystemStatusOsObserver.cpp:105-284` | If also no client with items updates, those are exactly the items that somebody wants by the requests made |
| `OsObserver.AnUpdateCanStrandAnItem` | `gps/core/SystemStatusOsObserver.cpp:151-200` | A run of four requests after which no client wants an item that the framework still serves |
| `OsObserver.SystemStatusOsObserver.Subscribe` | `gps/core/SystemStatusOsObserver.cpp:105-126` | The handler carries out the step Subscribe and its calls |
| `OsObserver.SystemStatusOsObserver.UpdateSubscription` | `gps/core/SystemStatusOsObserver.cpp:151-200` | The handler carries out the step UpdateSubscription and its calls |
| `OsObserver.SystemStatusOsObserver.Unsubscribe` | `gps/core/SystemStatusOsObserver.cpp:223-242` | The handler carries out the step Unsubscribe and its calls |
| `OsObserver.SystemStatusOsObserver.UnsubscribeAll` | `gps/core/SystemStatusOsObserver.cpp:262-284` | The handler carries out the step UnsubscribeAll and its calls |
| `OsObserver.SystemStatusOsObserver.SetSubscriptionObj` | `gps/core/SystemStatusOsObserver.cpp:62-89` | The handler carries out the step SetSubscriptionObj and its calls |
| `SetMap.TrimmedLists` | `gps/utils/LocUnorderedSetMap.h:127-150` | Trimming removes exactly the pairs of the given keys and values, drops the keys left empty, and reports just those |
| `SetMap.AddedLists` | `gps/utils/LocUnorderedSetMap.h:152-184` | Adding lists exactly the old pairs and those of the given keys and values, and reports just the new keys |
| `SetMap.RemoveAndReturnIntersect` | `gps/utils/LocUnorderedSetMap.h:60-77` | The intersection is returned and taken out of both sets |
| `SetMap.LocUnorderedSetMap.TrimOrRemove` | `gps/utils/LocUnorderedSetMap.h:135-150` | The loop over the keys carries out Trimmed, GoneKeys and GoneVals |
| `SetMap.LocUnorderedSetMap.Add` | `gps/utils/LocUnorderedSetMap.h:176-184` | The loop over the keys carries out Added and NewKeys |
| `SetMap.LocUnorderedSetMap.Update` | `gps/utils/LocUnorderedSetMap.h:186-199` | The new values are stored; returned are the values the key had already |
| `RealtimeEstimator.EstimateIsExpected` | `gps/core/LocApiBase.cpp:932-982` | The running estimate of every history equals a closed form of it: boot time minus the initial travel time up to the sixth fix of the streak since the last reset or jump, and from then on data time plus the fixed offset of that sixth fix |
| `RealtimeEstimator.SixthFixCalibrates` | `gps/core/LocApiBase.cpp:932-982` | After a reset the first five regular fixes are estimated as boot time minus the given travel time; from the sixth on the estimate is the sixth's, moved by the modem's time since |
| `RealtimeEstimator.StreakGrowsIff` | `gps/core/LocApiBase.cpp:951-955` | A streak grows by a fix that is as far from the one before as the time between fixes says, or that gives none, and starts over with any other |
| `RealtimeEstimator.WallClockIsIrrelevant` | `gps/core/LocApiBase.cpp:956-970` | Two histories that differ only in the wall clock give the same estimates |
| `RealtimeEstimator.EstimatesAreSteady` | `gps/core/LocApiBase.cpp:951-970` | Within a calibrated streak the estimate moves exactly as the modem's time does, so by exactly the time between fixes where one is given |
| `RealtimeEstimator.StateOf` | `gps/core/LocApiBase.h:349-368` | The counter is five minus the length of the streak, and the stored clock difference is the offset plus the last lead of the wall clock |
| `RealtimeEstimator.ElapsedRealtimeEstimator.GetElapsedRealtimeEstimateNanos` | `gps/core/LocApiBase.cpp:932-982` | The call returns and stores what Estimate says, and changes nothing when the clocks cannot be read |
| `RealtimeEstimator.ElapsedRealtimeEstimator.Reset` | `gps/core/LocApiBase.cpp:984-990` | All fields return to their start |
| `TripBatching.RunsAreExact` | `gps/batching/BatchingAdapter.cpp:662-1025` | In every run that loses no distance, the three accumulated distances of a trip and the batch counter together give exactly the distance since the trip joined, also between a start or joining restart and the moment the modem acts on it |
| `TripService.RunsServeEveryTrip` | `gps/batching/BatchingAdapter.cpp:750-1025` | In every run that loses neither distance nor service, the modem's batch ends before any trip is over and is as fast as each trip asks |
| `TripService.StepServesIff` | `gps/batching/BatchingAdapter.cpp:750-1025` | While the accounts are right, an event keeps every trip served, if and only if it is no restart with a batch longer than some trip's rest or slower than some trip asks, and no joining restart that takes more to be left than some trip has to go |
| `TripService.MeasuredJoinServes` | `gps/batching/BatchingAdapter.cpp:814-828` | A join that is told the distance so far, by a batch not yet over, is never such a restart |
| `TripService.StepTrips` | `gps/batching/BatchingAdapter.cpp:663-700` | Each event adds and removes exactly the trips it names, with the distance and interval they asked for; a report removes exactly those that have come their distance |
| `TripService.PutReplaces` | `gps/batching/BatchingAdapter.cpp:828-828` | Entering a trip puts exactly that trip under its id and keeps all others |
| `TripService.JoinAsks` | `gps/batching/BatchingAdapter.cpp:797-830` | A join restarts the batch if and only if the new trip is shorter than what is left or faster, with the smaller of the two distances and of the two intervals; all of the batch counts as left if the modem could not tell |
| `TripService.JoinedTripIsServed` | `gps/batching/BatchingAdapter.cpp:814-837` | After a join that was told the distance so far the modem has left the lesser of what it had and what the new trip needs, and runs at the lesser interval |
| `TripService.DecisionIsTight` | `gps/batching/BatchingAdapter.cpp:974-1005` | The batch's end moves if and only if it is over, its own trip is gone or a trip ends before it, and then to where the first trip ends; its interval changes if and only if a trip is faster, or its own trip is gone and it is not the least, and then to the least; only then it is restarted |
| `TripService.ReportFlags` | `gps/batching/BatchingAdapter.cpp:673-688` | A report notes that the batch's own trip is gone if and only if a trip with its distance, or with its interval, has come its distance |
| `TripService.StopFlags` | `gps/batching/BatchingAdapter.cpp:891-907` | A stop notes the same of the trip it stops, and clears the record with the last trip |
| `TripService.LateJoinStartsNothing` | `gps/batching/BatchingAdapter.cpp:788-855` | A trip whose query is answered after the last other trip was stopped is listed, but no batch is started for it |
| `TripBatching.StepKeepsExactIff` | `gps/batching/BatchingAdapter.cpp:737-1025` | One event keeps that if and only if it is none of: travel before the modem has begun the batch that the accounts assume, a batch restart with an outdated distance, a joining restart over trips not measured since they moved, a join without restart into a batch about to end |
| `TripBatching.TravelKeepsExactIff` | `gps/batching/BatchingAdapter.cpp:833-851` | Travel keeps the accounts if and only if nothing moves, nobody is on a trip, or no start or joining restart is waiting for the modem |
| `TripBatching.RestartKeepsExactIff` | `gps/batching/BatchingAdapter.cpp:1004-1025` | A restart of the batch keeps the accounts if and only if there is no trip or the distance it was given is the present counter |
| `TripBatching.JoinKeepsExactIff` | `gps/batching/BatchingAdapter.cpp:787-858` | A joining trip keeps the accounts if and only if, with a restart, every trip's last measurement is up to date, and without one, the batch it joins is not about to end |
| `TripBatching.AfterAReportTripsAreUpToDate` | `gps/batching/BatchingAdapter.cpp:667-672` | A joining restart just after a report therefore loses nothing |
| `TripBatching.ReportRemovesCompletedTrips` | `gps/batching/BatchingAdapter.cpp:662-701` | With exact accounts, no start or restart under way and the present counter, a report removes a trip if and only if it has travelled its distance since it joined |
| `TripBatching.StaleReportCompletesIff` | `gps/batching/BatchingAdapter.cpp:669-673` | A report from before the trip joined wraps around: the trip counts as completed unless it is longer than the wrapped value |
| `TripBatching.AfterAReportLeastIsMinimum` | `gps/batching/BatchingAdapter.cpp:947-963` | After a report the minimum loop neither wraps nor takes a real value for none yet, and finds the least distance to go |
| `TripBatching.LeastIsMinimumIff` | `gps/batching/BatchingAdapter.cpp:947-963` | In general the loop, in which 0 stands for none yet, finds the minimum if and only if no value is 0 or the last one is |
| `TripBatching.NoTripIsOverrunIff` | `gps/batching/BatchingAdapter.cpp:981-1002` | With all trips measured, the batch ends before any trip is over, if and only if it is not so that its distance was not dropped, what is left of it is positive and at most the least to go, its interval changes, and its full distance is more than the least to go |
| `TripBatching.SlowTripIsOverrun` | `gps/batching/BatchingAdapter.cpp:981-1002` | A case where it is: a batch of 150 is started although the trip has 100 to go |
| `TripBatching.SlowTripAloneIsReachable` | `gps/batching/BatchingAdapter.cpp:787-1002` | That case is reached by nine events |
| `TripBatching.IntervalServesEveryTrip` | `gps/batching/BatchingAdapter.cpp:997-1002` | The decided interval is at most every trip's, and is the least one if and only if the old interval was dropped or some trip asks for no more than it |
| `TripBatching.BatchingAdapter.ReportCompletedTrips` | `gps/batching/BatchingAdapter.cpp:662-701` | The loop that erases while it walks carries out Report and lists the completed trips |
| `TripBatching.BatchingAdapter.LeastRemainingAndInterval` | `gps/batching/BatchingAdapter.cpp:947-963` | The loop carries out the two minima |
| `TripBatching.BatchingAdapter.RestartTripBatching` | `gps/batching/BatchingAdapter.cpp:924-1002` | Stops the batch when no trip is left, and otherwise decides as Decide does |
| `TripBatching.BatchingAdapter.OnBatchRestarted` | `gps/batching/BatchingAdapter.cpp:1004-1025` | The loop rebases every trip |
| `TripBatching.BatchingAdapter.OnAccumulatedDistance` | `gps/batching/BatchingAdapter.cpp:787-858` | The answer to the query carries out Join |
| `GeofenceMaps.EveryRunIsSound` | `gps/geofence/GeofenceAdapter.cpp:50-176` | In every run with fresh session ids, answers only to what was asked and no hardware id given to two addressable geofences, every id leads to the geofence that carries its key, keys are distinct, and nothing is both present and asked for |
| `GeofenceMaps.EveryRunRefinesDirectory` | `gps/geofence/GeofenceAdapter.cpp:50-176` | In every such run, what clients can address through the two maps is what a single map from client keys to geofences holds under the same replies: add, remove by hardware id, remove a client, pause, modify, clear on restart |
| `GeofenceMaps.EveryRunTracksGeofences` | `gps/geofence/GeofenceAdapter.cpp:50-176` | In every such run the geofences kept are exactly those that the single map addresses and those that stopped clients leave until their removal is confirmed or their hardware id is given anew |
| `GeofenceMaps.IdsAreInjective` | `gps/geofence/GeofenceAdapter.cpp:96-117` | In consistent maps no two keys lead to the same hardware id |
| `GeofenceMaps.SaveKeepsIff` | `gps/geofence/GeofenceAdapter.cpp:644-660` | Saving keeps the maps consistent if and only if the hardware id is not another key's and the key is not on another geofence |
| `GeofenceMaps.EraseKeepsIff` | `gps/geofence/GeofenceAdapter.cpp:62-72` | The second phase of removing a client keeps them consistent if and only if no id leads to the erased geofence, which is what the first phase sees to |
| `GeofenceMaps.StopRunOrphansTheUnconfirmed` | `gps/geofence/GeofenceAdapter.cpp:50-78` | After stopping a client and any number of the modem's answers, in any order and with any result, the orphaned geofences are those from before and those of the client whose removal is not confirmed so far, and the client has no id |
| `GeofenceMaps.StopOrphansTheUnconfirmed` | `gps/geofence/GeofenceAdapter.cpp:50-78` | Erasing any part of what stopping a client asked for orphans exactly the rest |
| `GeofenceMaps.StoppedClientComesBackIff` | `gps/geofence/GeofenceAdapter.cpp:50-78` | A reply of the modem can give a stopped client an id again, if and only if a geofence of the client was still to be added |
| `GeofenceMaps.SaveRefines` | `gps/geofence/GeofenceAdapter.cpp:644-660` | In terms of the single map, saving adds the one geofence and changes no other |
| `GeofenceMaps.RemoveRefines` | `gps/geofence/GeofenceAdapter.cpp:662-686` | In terms of the single map, removing takes away the one geofence of the hardware id and no other |
| `GeofenceMaps.StopClientRefines` | `gps/geofence/GeofenceAdapter.cpp:50-78` | In terms of the single map, stopping a client takes away exactly its geofences |
| `GeofenceMaps.PauseRefines` | `gps/geofence/GeofenceAdapter.cpp:688-712` | In terms of the single map, pausing and resuming change the one geofence's flag |
| `GeofenceMaps.ModifyRefines` | `gps/geofence/GeofenceAdapter.cpp:714-724` | In terms of the single map, modifying changes the one geofence's options |
| `GeofenceMaps.RestartRefines` | `gps/geofence/GeofenceAdapter.cpp:141-152` | A modem restart leaves nothing addressable until the modem has answered |
| `GeofenceMaps.LookupsAreInverse` | `gps/geofence/GeofenceAdapter.cpp:96-117` | The lookups by key and by hardware id are inverse to each other, except for geofences no id leads to |
| `GeofenceMaps.RestartRestoresIff` | `gps/geofence/GeofenceAdapter.cpp:141-176` | After a modem restart a geofence is restored to its client as it was, if and only if it was not paused |
| `GeofenceMaps.RestartRevivesOrphansIff` | `gps/geofence/GeofenceAdapter.cpp:141-176` | A modem restart asks for no geofence that clients could not address, if and only if there is no orphan |
| `GeofenceMaps.RevivedOrphanIsAddressed` | `gps/geofence/GeofenceAdapter.cpp:141-176` | The answer for an orphan gives the stopped client's geofence an id again |
| `GeofenceMaps.GeofenceAdapter.SaveGeofenceItem` | `gps/geofence/GeofenceAdapter.cpp:644-660` | Carries out Save |
| `GeofenceMaps.GeofenceAdapter.RemoveGeofenceItem` | `gps/geofence/GeofenceAdapter.cpp:662-686` | Carries out Remove: nothing is erased unless both entries are there |
| `GeofenceMaps.GeofenceAdapter.StopClientSessions` | `gps/geofence/GeofenceAdapter.cpp:50-78` | The loop that erases while it walks carries out StopClient and asks for just those removals |
| `GeofenceMaps.GeofenceAdapter.RestartGeofences` | `gps/geofence/GeofenceAdapter.cpp:141-176` | Clears both maps unless there is no geofence, and asks for every geofence again |
| `AdapterArray.EveryRunRefines` | `gps/core/LocApiBase.cpp:231-276` | After any adds and removes the array is a hole-free prefix without duplicates that holds exactly the registered set, capped at its size |
| `AdapterArray.AddIsLostIff` | `gps/core/LocApiBase.cpp:231-239` | An added adapter is not registered if and only if the array is full of others |
| `AdapterArray.RemovedRefines` | `gps/core/LocApiBase.cpp:241-276` | Removing takes away exactly that adapter and leaves no hole |
| `AdapterArray.LocApiBase.AddAdapter` | `gps/core/LocApiBase.cpp:231-239` | The array gains the adapter at its end if it is new and fits, and only then an open message is sent |
| `AdapterArray.LocApiBase.RemoveAdapter` | `gps/core/LocApiBase.cpp:241-276` | The last adapter fills the hole; a close message is sent if and only if nobody is left, otherwise an open message, and none for a stranger |
| `AdapterArray.LocApiBase.CloseHole` | `gps/core/LocApiBase.cpp:248-266` | The inner loop finds the last entry and moves it into the cleared slot |
| `AdapterArray.LocApiBase.GetEvtMask` | `gps/core/LocApiBase.cpp:168-175` | A bit is in the mask if and only if some registered adapter has it and it is not excluded |
| `SessionIds.IdsAreFresh` | `gps/core/LocAdapterBase.cpp:62-70` | No id is 0 or 0xFFFFFFFF, and two calls share an id if and only if whole periods of 0xFFFFFFFE calls lie between them |
| `SessionIds.NthInClosedForm` | `gps/core/LocAdapterBase.cpp:62-70` | The n-th id is 1 plus n modulo 0xFFFFFFFE |
| `SessionIds.SessionIdCounter.GenerateSessionId` | `gps/core/LocAdapterBase.cpp:62-70` | The 32-bit counter is advanced past the excluded values and returned |

## Left out

- TrackingRuns.EveryRunIsSafe: assumes that modem commands for the time-based session succeed and that distance-based tracking is supported; refusals of distance-based requests are covered.
- TrackingRuns.RestartIsExact: a minimum of the power mode holds after restarts and is commanded by stops; starts and updates do not keep it in the code, as `StartServesPowerIff` says.
- TrackingCommands.StartCommands: assumes valid power modes, as the commands of updates, stops and restarts do; INVALID stands for "not set" in the folds.
- TrackingLives.EveryRunFollowsLives: takes which session a reply is for from the order in which the requests were posted.
- TrackingAnswers.AnswersAreConserved: says nothing of sessions whose client is removed; stopping them can answer a client that asked for nothing.
- SvIdCodec.EncodeSetsExactly: excludes the SBAS ids 208 to 246, for which the code shifts a 64-bit word by 64 or more, which C++ leaves undefined.
- SvIdCodec.ListsRoundTrip: excludes the same ids for the same reason.
- SvIdCodec.ConvertToGnssSvIdConfig: excludes the same ids for the same reason.
- BlobSections.SortedSectionIsUnique: speaks of any sorted result; the sorting algorithm is the Python library's.
- RealtimeEstimator.EstimateIsExpected: uses unbounded integers, so overflow of the 64-bit times is not covered.
- TripBatching.RunsAreExact: assumes that no batch and no trip is longer than 32 bits can tell and that a query is answered with the present counter; distance travelled between a query and the restart it leads to is what `LosesDistance` describes.
- TripService.RunsServeEveryTrip: counts the batch that was asked for as running, with nothing travelled, until the modem begins it.
- TripBatching.JoinKeepsExactIff: assumes that the modem acts on the start or restart that a trip asks for; its refusal is not a step.
- TripBatching.BatchingAdapter.RestartTripBatching: takes the minima and the decision in one step, while the source decides in the reply to a query; trips that come or go in between are not covered.
- GeofenceMaps.EveryRunIsSound: assumes what `Allowed` lists of the modem, in particular that it does not give a hardware id away while an id still leads to it.
- NetworkTable.EveryRunRefines: starts from a non-empty cache; `FirstItemRefinesIff` is about the first item.
- AdapterArray.LocApiBase.GetEvtMask: reads the adapters' masks as fields; their own updates are not part of this model.
- SetMap: sets are iterated in arbitrary order, and the order in which items reach the framework is not modelled.
- The trip path of `stopTripBatchingMultiplex` appears as a step but has no class method, and the batch-full registration is not modelled.
- Position mode, engine hub, DGNSS, power-state and odcpi side effects of the tracking handlers, and messages held back until the engine's capabilities are known.
- APN names, bearers and IP types of the AGPS callbacks, and the current-subscriber pointer, which is a position or a value here.
- Clients' aggregated responses in the geofence commands, and breach and dwell events.
- Sending of cached data items to new subscribers in `SystemStatusOsObserver`.
- Reading and writing of the blob list file and its split into sections.
- Memory management throughout: references read after an erase are modelled by the values they had.
- Library loading, configuration files, sockets, timers, logging, message queues and threads.
- Position, velocity and antenna arithmetic in floating point, and the field-by-field parsers behind the tokenizer.
