# Y210 device tree: models and proofs

These Dafny modules model the parts of the Huawei Y210 device tree that hold real
algorithms and state, and prove what the code is meant to guarantee.

| file | what it models |
|---|---|
| `CStrings.dfy` | C strings, `strtok` on commas, newline cutting, `strtol` in base 16 |
| `FilterTables.dfy` | the audio filter tables: which word of a record goes to which array slot |
| `FilterLoader.dfy` | the loader of the filter file: in-place tokenizer, record parsers, the line loop |
| `FilterRoundTrip.dfy` | printing records and loading them again |
| `FilterLayout.dfy` | which word of a line ends up in which table entry, for a record and for a file |
| `FilterConfig.dfy` | the routing machine on the filter file it was given |
| `AudioSystem.dfy`, `Wrappers.dfy` | names the modules share, and optional values |
| `Routing.dfy`, `RoutingProofs.dfy` | the routing, FM and post-processing machine as functions on its state, and its invariants over runs |
| `RoutingFilters.dfy` | the post-processing filters over runs, at rest and while something plays |
| `RoutingCalls.dfy` | what each call is for, case by case: endpoints, filters, mutes, FM, parameters |
| `SoundEndpoints.dfy` | looking up the sound endpoints, and for which drivers the routing results hold |
| `AudioHardware.dfy` | the audio HAL object, method by method |
| `PcmOut.dfy` | the playback stream: open, fill two buffers, start, standby |
| `AacCapture.dfy` | AAC framing in a caller's buffer |
| `SampleRate.dfy` | the search for the nearest capture rate |
| `Nv21.dfy` | the NV21 to RGB565 converter |
| `FmHandover.dfy`, `FmDelivery.dfy` | handing the FM radio's descriptor from fminit to its clients, and when a waiting client gets it |
| `CameraParams.dfy`, `CameraWrapper.dfy`, `CameraHistory.dfy` | the camera wrapper: parameter maps, life cycle, callbacks, and its state in terms of the calls so far |
| `PolicyDevice.dfy` | the audio policy's choice of output devices |
| `FontRle.dfy` | the run-length decoder of the recovery font |

Code that changes state is modelled by classes and loops whose contracts tie them
to functions; the lemmas are about those functions. Calls into drivers, the
vendor equalizer, system properties and the framework are parameters: an oracle
answers each request, so a statement for all oracles covers every pattern of
failures. A request goes to one of four channels (the sound endpoint, the pin and
codec registers, the post-processing node, the audio-manager node), and a property
that needs answers to be good needs them on one channel only. Every public call of
the HAL is one atomic step.

## Where the code does not do what one would expect

Each of these is a lemma below, with the exact condition.

- **FM pins** (`libaudio/AudioHardware.cpp:1944-1990`): the pin registers follow the
  FM endpoints on every call but one, a change of the microphone mute while FM is
  off and the cached device is still an FM endpoint (`StepMovesPins`), and on every
  run if and only if it has no such call (`RunMovesPins`, `FmHasPinsExactly`). Such
  calls are reachable because the car kit endpoint is never looked up: routing to a
  car kit changes nothing. Five calls, whose register writes all succeed, then end
  with FM on, an FM endpoint in use, and the pins not with FM, on the digital as on
  the analog path (`EveryFmDriverCanLosePins`).
- **Filters at rest** (`libaudio/AudioHardware.cpp:1001-1005`): one would expect every
  filter to be off while nothing plays. A call keeps that if and only if it is not
  the end of a playback with filters on and a cached endpoint that has no coefficient
  tables, as after a mode change has forgotten it (`StepSilences`, `RunSilences`).
  Five calls reach this exactly when the parsed file flags a filter for the speaker
  (`ForgettingLeavesFilters`).
- **Endpoint ids** (`libaudio/AudioHardware.cpp:248-324`): the driver chooses the ids, and
  nothing stops it from using one twice. The FM endpoints are apart from the others
  if and only if its offer for FM is complete and its ids for FM are not negative and
  not used otherwise (`FmDistinctExactly`); a driver that shares an id is
  `SharedIdsCollide`.
- **Playback flag** (`libaudio/AudioHardware.cpp:1200-1209`): closing the output stream
  while it plays leaves the flag up with nothing open, until the next start or
  standby (`PcmOut.RunIsValid`, `PcmOut.FlagGoesStale`).
- **Filters while playing** (`libaudio/AudioHardware.cpp:1001-1005`): the filters of the
  active endpoint are on while something plays if and only if playback did not start
  after the endpoint was forgotten and before the next route, with the DSP set
  otherwise (`StepPlays`, `RunPlays`). Five calls reach the other case
  (`BlindRunPlaysBare`).
- **AAC capture** (`libaudio/AudioHardware.cpp:2777-2813`): after EAGAIN two bytes are
  skipped, and what a reader then sees depends on what the buffer held. Reading back
  works for all old contents if and only if, among the answers the call asked for, no
  EAGAIN came before a chunk (`DecodesExactlyWithoutGaps`, with a driver in
  `AgainThenChunkMisleads`). Requests above 65543 bytes can lose a chunk
  (`LargerRequestsLose`). A request below 6 bytes has no room for the header, and
  what is left of it wraps: the stores stay inside the request if and only if it has
  at least 6 bytes (`StoresInsideExactly`).
- **Capture rate** (`libaudio/AudioHardware.cpp:2226-2238`): the answer is the nearest
  rate if and only if the request is at most 2^31 + 9512; above, it is 8000
  (`AnswerIsNearest`). `abs` of the smallest 32-bit integer is taken to wrap.
- **NV21** (`patches/frameworks_base_camera.patch:232-242`): for an odd width and at
  least one row the converter stores one pixel past the image (`InsideExactlyWhenEven`),
  which `Convert` gives exactly.
- **Media in a call** (`libaudio/AudioPolicyManager.cpp:188-203`): with an FM device
  available, media gets nothing whenever the call is on none of the FM bits, even if
  A2DP is connected (`InCallMediaWithFm`).
- **Call tones** (`libaudio/AudioPolicyManager.cpp:57-110`): within a call, tones follow
  the call if and only if no car kit is both available and preferred
  (`TonesFollowTheCall`); the source's own comment says they always do.
- **Preview size** (`libcamera/Y210CameraWrapper.cpp:849-873`): a 432x320 preview stays
  in the cache if and only if the call is not delegated (`CacheHolds432Exactly`). An
  empty preview size is answered with 640x480, a missing one with 480x320.
- **Filter file** (`libaudio/AudioHardware.cpp:675-811`): all transmit records of a
  kind share one flag slot (`SlotsAreSeparate`); a record that fails leaves its words
  so far in its own slot only; a last line without a newline is not read. The search
  for the next newline leaves the mapped file if and only if there is no bad line, no
  NUL in the text and no unused byte in its last page (`Load`, `MappedHasNul`). Extra commas
  never matter beside a comma, but within a line's two-character code they make the
  line ignored or rejected (`CommasInTheCode`).
- **Camera shims** (`libcamera/Y210CameraWrapper.cpp:291-295`): a vendor object keeps shims
  of a wrapper that is gone if and only if the last reference went while the wrapper
  was neither released nor without callbacks and somebody else kept the vendor object
  (`DanglesAfterUncleanDrop`).

## Model

| member | source | states |
|---|---|---|
| CStrings.SplitIsCutAtCommas | libaudio/AudioHardware.cpp:440-442 | Cutting at commas is undone by joining with commas and leaves no comma in a piece. |
| CStrings.FieldsAreTheNonEmptyPieces | libaudio/AudioHardware.cpp:461-465 | What the tokenizer returns for a line is exactly the non-empty pieces between its commas, in order. |
| CStrings.CommasDoNotCount | libaudio/AudioHardware.cpp:461-465 | Any number of extra commas between fields changes nothing. |
| CStrings.LinesCons | libaudio/AudioHardware.cpp:877-901 | A newline-free text and a newline in front of a file add exactly one line in front. |
| CStrings.HexRoundTrip | libaudio/AudioHardware.cpp:470-470 | Four hex digits of a 16-bit value are read back as that value. |
| CStrings.WordForms | libaudio/AudioHardware.cpp:470-470 | A blank, a sign or 0x in front of four hex digits is taken; a minus sign takes the value off 2^16. |
| FilterTables.EqualizerTiles | libaudio/AudioHardware.cpp:563-602 | Numerators, denominators and shifts occupy disjoint ranges that exactly tile the first 11 slots per band, fit 132 slots up to 12 bands, and each slot tells its band and part. |
| FilterTables.BandAdded | libaudio/AudioHardware.cpp:582-602 | Storing the parts of one more band turns the table of i bands into that of i + 1. |
| FilterTables.SwapIsAnInvolution | libaudio/AudioHardware.cpp:689-694 | The TX IIR index map is its own inverse on 0..47 and stays there, so each slot is written once; which words it swaps is FilterLayout.RecordIsLaidOut. |
| FilterTables.TargetIsInRange | libaudio/AudioHardware.h:94-158 | Every store of an acceptable record is inside the declared array. |
| FilterTables.TargetsAreDistinct | libaudio/AudioHardware.cpp:456-811 | No two words of one record go to the same slot. |
| FilterTables.RecordKeepsOtherSlots | libaudio/AudioHardware.cpp:456-811 | A record changes only its own device or rate slot, and the shared flag of its kind. |
| FilterTables.RecordIsStored | libaudio/AudioHardware.cpp:456-811 | After a record each of its words is in the slot its target names; the slots entry by entry are FilterLayout.RecordIsLaidOut. |
| FilterTables.EqualizerIsStored | libaudio/AudioHardware.cpp:534-608 | After an equalizer record each part of each band holds what the vendor routine computed for that band, and the slots behind are zero. |
| FilterTables.SurplusWordsDoNotCount | libaudio/AudioHardware.cpp:456-811 | Words after the ones a record needs do not matter. |
| FilterLayout.RecordIsLaidOut | libaudio/AudioHardware.cpp:456-811 | After a record, entry by entry: IIR word i at i, flag and bands behind; ADRC and NS words in their fields; equalizer parts of band b at 6b, 48 + 4b and 80 + b; multi-band words by band, then the external buffer as signed words, then the flag; TX IIR words 2i and 2i + 1 exchanged below 40 and in place from 40 on; AGC fields and parameters; each transmit flag other than zero sets its rate bit. |
| FilterLayout.FileIsLaidOut | libaudio/AudioHardware.cpp:440-905 | After a file the same holds of the last record of every slot. |
| FilterLayout.FileSharedFlags | libaudio/AudioHardware.cpp:700-811 | The flag shared by the transmit records of a kind is the flag word of the last one: 49, 24 or 8. |
| FilterLayout.LineIsRead | libaudio/AudioHardware.cpp:440-811 | A line is accepted exactly when it has its letter, its digit and its number of words with sizes in range, and then as the record of that letter, for the device or rate of that digit, with the words behind its header and description. |
| FilterLayout.IgnoredExactly | libaudio/AudioHardware.cpp:440-813 | A line is passed over exactly when it starts with no transmit letter and no device letter with its digit. |
| FilterLayout.LinesAreLaidOut | libaudio/AudioHardware.cpp:440-905 | In a file without a bad line the last complete line with a letter and digit decides every entry of its slot, whatever the tables were. |
| FilterLoader.AcceptedIsWellformed | libaudio/AudioHardware.cpp:610-673 | A line is accepted only with sizes inside the arrays: at most 5 bands and 392 bytes. |
| FilterLoader.Loader.Strtok | libaudio/AudioHardware.cpp:461-465 | The in-place tokenizer returns the first remaining field as a string and leaves the rest, or says there is none. |
| FilterLoader.Loader.NextWord | libaudio/AudioHardware.cpp:469-470 | The next field as a 16-bit word; fails exactly when the line has no more. |
| FilterLoader.Loader.ParseIir | libaudio/AudioHardware.cpp:456-482 | Accepts exactly lines with enough words and then has the record's effect, word i in entry i by FilterLayout.RecordIsLaidOut; a failure leaves a prefix of the words in place. |
| FilterLoader.Loader.ParseAdrc | libaudio/AudioHardware.cpp:484-532 | As for the IIR record. |
| FilterLoader.Loader.ParseEq | libaudio/AudioHardware.cpp:534-608 | As above, with the coefficients of the vendor routine laid out band by band. |
| FilterLoader.Loader.ParseMbadrc | libaudio/AudioHardware.cpp:610-673 | Accepts exactly lines with sizes in range and enough words for those sizes. |
| FilterLoader.Loader.ParseTxIir | libaudio/AudioHardware.cpp:681-717 | As for the IIR record, words swapped in pairs below 40 by FilterLayout.RecordIsLaidOut. |
| FilterLoader.Loader.ParseAgc | libaudio/AudioHardware.cpp:719-759 | As for the IIR record. |
| FilterLoader.Loader.ParseNs | libaudio/AudioHardware.cpp:761-805 | As for the IIR record. |
| FilterLoader.Loader.CheckAndSet | libaudio/AudioHardware.cpp:440-813 | One line is ignored, rejected or applied by its own text alone; no tokenizer state from an earlier line is needed. |
| FilterLoader.Loader.Load | libaudio/AudioHardware.cpp:874-905 | Loading a file is a left fold over its newline-terminated lines that stops at the first bad one, which changes only its own slot; without a bad line every read stays inside the mapping if and only if the mapping has a NUL. |
| FilterLoader.MappedHasNul | libaudio/AudioHardware.cpp:860-879 | The mapped file has a NUL if and only if the text has one or its size is not a multiple of the page size. |
| FilterRoundTrip.RecordRoundTrip | libaudio/AudioHardware.cpp:440-813 | Every good record, printed as a line, is read back as that record. |
| FilterRoundTrip.FileRoundTrip | libaudio/AudioHardware.cpp:440-905 | Every list of good records, printed, loads without a bad line and with exactly the records' effect, whether the mapping ends there or a NUL and anything else follows. |
| FilterRoundTrip.FileIsStored | libaudio/AudioHardware.cpp:440-905 | After a file every word is in the slot of its target unless a later record owns that slot; the slots entry by entry are FilterLayout.FileIsLaidOut. |
| FilterRoundTrip.FileEqualizer | libaudio/AudioHardware.cpp:534-608 | After a file each part of each band of an equalizer is what the vendor routine computed for the last record of that device, and the slots behind are zero. |
| FilterRoundTrip.FilePreprocBits | libaudio/AudioHardware.cpp:700-805 | After a file a pre-processing bit is set if and only if it was before or some record of that kind and rate asks for it; no record clears it. |
| FilterRoundTrip.LoadPrinted | libaudio/AudioHardware.cpp:815-905 | A printed file of any page size, mapped and loaded by a fresh loader, gives exactly the tables of its records; the search for a further line leaves the mapping exactly when the file fills its last page. |
| FilterRoundTrip.SlotsAreSeparate | libaudio/AudioHardware.cpp:675-811 | Two records share a slot only if they are for the same slot of the same kind, or it is the one flag of a transmit kind. |
| FilterRoundTrip.TrailingCommas | libaudio/AudioHardware.cpp:456-811 | Commas at the end of a line never change what it means. |
| FilterRoundTrip.ExtraCommas | libaudio/AudioHardware.cpp:456-811 | Any number of extra commas beside a comma, anywhere in a line, never changes what it means. |
| FilterRoundTrip.CommasInTheCode | libaudio/AudioHardware.cpp:456-679 | Commas within the two-character code make the line ignored, or rejected behind the letter of a transmit record; a coded line keeps its meaning exactly when it was rejected anyway behind such a letter. |
| FilterRoundTrip.LoadKeepsSizes | libaudio/AudioHardware.cpp:621-666 | However a load ends, multi-band tables filled by good lines keep at most 5 bands and 392 bytes. |
| FilterConfig.LoadMeans | libaudio/AudioHardware.cpp:878-901 | Loading fails exactly when some line is bad, and otherwise applies the records of the good lines in order. |
| FilterConfig.FlagOfRecords | libaudio/AudioHardware.cpp:1031-1058 | After a file the flag of a filter and device is the flag word of the last record for them, and 0 without one. |
| FilterConfig.FlagsAreRead | libaudio/AudioHardware.cpp:1031-1058 | The flag of a filter and device is the flag word of the line that decides it: word 48 of an A line, the last of a D line, the first of a B or C line. |
| FilterConfig.BadFileEnablesNothing | libaudio/AudioHardware.cpp:186-190 | On every run, whatever the drivers answer, a file that cannot be read or has one bad line leaves every filter off. |
| FilterConfig.EnabledFilterIsFlagged | libaudio/AudioHardware.cpp:986-1155 | On every run a filter that is on has a record in the file for the device it was enabled for, and the last such record has a flag word other than zero. |
| FilterConfig.EnabledFilterWasPrinted | libaudio/AudioHardware.cpp:986-1155 | The same for a printed file, in terms of the records printed. |
| FilterConfig.PlayingFollowsTheFile | libaudio/AudioHardware.cpp:986-1155 | On every run that never starts playback blind, with post-processing requests that succeed: while speaker, handset or headset plays, a filter is on exactly when the route asks for it and the deciding line of the file for it and digit 1, 2 or 3 flags it; the plain compressor only without the multi-band one. |
| RoutingProofs.PinSwitchCompletes | libaudio/AudioHardware.cpp:1635-1651 | A completed pin switch leaves exactly one of the two register groups active. |
| RoutingProofs.PathKeepsPins | libaudio/AudioHardware.cpp:1698-1739 | Enabling the FM audio path never touches the pin registers. |
| RoutingProofs.RouteMovesPins | libaudio/AudioHardware.cpp:1944-1990 | If the register writes succeed, into an FM endpoint the pins go to FM, out of one with FM off to Bluetooth, and otherwise they stay. |
| RoutingProofs.RouteSetsSound | libaudio/AudioHardware.cpp:1897-1990 | The device and the two mutes the driver has after a route that reports success, which it does whenever the requests to the sound endpoint succeed. |
| RoutingProofs.PostProcEffect | libaudio/AudioHardware.cpp:986-1155 | Whatever fails, only filters that route mask and flags allow come on, the two compressors never together, and none without a parsed file; if the post-processing requests succeed, each enabled filter holds the coefficients of the device of that enable. |
| RoutingProofs.PostProcExact | libaudio/AudioHardware.cpp:986-1155 | If the post-processing requests succeed, a filter is on exactly when route mask and parsed flag allow it and, for the plain compressor, the multi-band one is not taken. |
| RoutingProofs.RouteSwitchesFilters | libaudio/AudioHardware.cpp:2164-2180 | A route taken while playing leaves on exactly the filters its mask asks for and the flags of its endpoint allow, the plain compressor giving way. |
| RoutingProofs.RouteSwitchesOff | libaudio/AudioHardware.cpp:2164-2180 | One that leaves an endpoint with tables for one without leaves no filter on. |
| RoutingProofs.EnableMaskMeans | libaudio/AudioHardware.cpp:1031-1058 | The computed mask has exactly the wanted filters. |
| RoutingProofs.ExactMask | libaudio/AudioHardware.cpp:1031-1058 | The DSP runs exactly those filters if and only if the known bits of its mask are the computed mask. |
| RoutingProofs.MasksInRange | libaudio/AudioHardware.cpp:54-90 | Every mask a route asks for consists of known filter bits. |
| RoutingProofs.OutputChoice | libaudio/AudioHardware.cpp:2032-2150 | With FM on the preferred output is an FM endpoint, otherwise a plain one, and it exists if all looked-up endpoints do. |
| RoutingProofs.ChoiceIsFm | libaudio/AudioHardware.cpp:1992-2163 | An FM endpoint is chosen only with FM on, for inputs too. |
| RoutingProofs.StepKeeps | libaudio/AudioHardware.cpp:1264-1392 | Every public call keeps each of the invariants, each under its own hypothesis on one channel; the pins, unless it is the losing call, and rest without filters, unless it leaves them on. |
| RoutingProofs.RunKeeps | libaudio/AudioHardware.cpp:1264-2183 | On every run: the current device is -1 or the active one, session opens minus closes is 1 exactly while the descriptor is valid, masks are in range, only allowed filters are on and the compressors exclude each other. If the sound endpoint's requests succeed and CURRENT is an id of its own, the driver's device is the active one; if the post-processing requests succeed, each enabled filter has its device's coefficients. If the FM endpoints exist and are apart from the others, a cached one is of the path in use; if moreover the register writes succeed, every looked-up endpoint exists and no output names a car kit without an endpoint, the pins follow FM. |
| RoutingProofs.InitiallyFine | libaudio/AudioHardware.cpp:92-180 | The freshly built HAL satisfies the invariants. |
| RoutingProofs.StepMovesPins | libaudio/AudioHardware.cpp:1944-1990 | With register writes that succeed and FM endpoints apart from the others, one call keeps the pins with FM if and only if it is not a change of the microphone mute with FM off on a cached FM endpoint. |
| RoutingProofs.RunMovesPins | libaudio/AudioHardware.cpp:1944-1990 | Under the same hypotheses the pins follow the FM endpoints after every call of a run if and only if no call of the run is the losing one in the state it comes in. |
| RoutingProofs.FmHasPinsExactly | libaudio/AudioHardware.cpp:1944-1990 | Under the same hypotheses: FM on and an FM endpoint in use implies the pins are with FM, throughout a run and on switching FM on anywhere in it, if and only if no call of the run loses the pins. |
| RoutingFilters.StepSilences | libaudio/AudioHardware.cpp:1001-1005 | If the post-processing requests succeed, one call keeps every filter off while nothing plays if and only if it does not end a playback with filters on and a cached endpoint without coefficient tables (or no parsed file). |
| RoutingFilters.RunSilences | libaudio/AudioHardware.cpp:2402-2416 | Over a run the filters are off whenever nothing plays if and only if no call of the run is such an end. |
| RoutingFilters.ForgettingLeavesFilters | libaudio/AudioHardware.cpp:1264-1273 | Open the speaker, route, play, change the mode, stop: nothing plays, and filters are on exactly when the file parsed and flags one for the speaker. |
| RoutingFilters.StepPlays | libaudio/AudioHardware.cpp:2164-2180 | If the post-processing requests succeed, one call keeps exactly the filters of the active endpoint on while something plays if and only if it does not start playback on a forgotten endpoint with the DSP set otherwise. |
| RoutingFilters.RunPlays | libaudio/AudioHardware.cpp:2379-2416 | The same over every run. |
| RoutingFilters.BlindRunPlaysBare | libaudio/AudioHardware.cpp:1264-1273 | Route to the speaker, change the mode, start playback: the speaker plays with every filter off, which is wrong exactly when the file parsed and flags one. |
| RoutingProofs.LossShows | libaudio/AudioHardware.cpp:1959-1980 | Under the same hypotheses there are outputs under which switching FM on after a losing call ends with the pins elsewhere. |
| RoutingProofs.OutputIsPreferred | libaudio/AudioHardware.cpp:1992-2183 | After output routing the current device is the first applicable entry of a priority list, unless that endpoint does not exist, and then nothing changes. |
| RoutingProofs.InputIsPreferred | libaudio/AudioHardware.cpp:1992-2029 | Routing for an input takes the first applicable endpoint of a priority list into use, or the preferred output where that endpoint does not exist; a call recording only notes the microphone. |
| RoutingCalls.OutputCases | libaudio/AudioHardware.cpp:2032-2150 | FM beats a text telephone, that beats Bluetooth, Bluetooth the car kit, the car kit a wired headset, and that the speaker; the handset is left. |
| RoutingCalls.InputCases | libaudio/AudioHardware.cpp:1998-2029 | For capture a Bluetooth microphone beats a wired one; otherwise the outputs decide between speaker and handset. |
| RoutingCalls.DualMicCases | libaudio/AudioHardware.cpp:2153-2161 | In a call with two microphones, and only then, handset and speaker give way to the echo cancelling pair. |
| RoutingCalls.TableCases | libaudio/AudioHardware.cpp:1007-1020 | The speaker has the first tables, the handset the second, the headset the third, no other endpoint any. |
| RoutingCalls.OutputMaskCases | libaudio/AudioHardware.cpp:2032-2150 | FM asks for no compressor, a headset for what its property allows, speaker and handset for every filter; telephony keeps what was asked for. |
| RoutingCalls.InputMaskCases | libaudio/AudioHardware.cpp:1998-2029 | A wired microphone asks for what the headset property allows, the speaker for every filter, Bluetooth and the handset for none. |
| RoutingCalls.NewEndpointStartsMuted | libaudio/AudioHardware.cpp:1897-1941 | A route to another endpoint that is to open the microphone reaches it muted first; failing halfway it leaves the microphone muted. |
| RoutingCalls.MicFollows | libaudio/AudioHardware.cpp:1297-1304 | The mute switch reaches the driver's microphone unless FM keeps it open, and moves no endpoint. |
| RoutingCalls.ModeReroutes | libaudio/AudioHardware.cpp:1264-1273 | After a mode change the next route reaches the driver even for the endpoint in use, with the mutes of the new mode. |
| RoutingCalls.StandbyReroutes | libaudio/AudioHardware.cpp:2822-2844 | Capture standby routes for the outputs again and reaches the driver. |
| RoutingCalls.CaptureReroutes | libaudio/AudioHardware.cpp:2754-2758 | A capture that starts always reaches the driver, with the mutes its microphone calls for. |
| RoutingCalls.FmSession | libaudio/AudioHardware.cpp:1819-1848 | Switching FM on or off opens or closes the session once, when the node answers well. |
| RoutingCalls.RouteSetsRegs | libaudio/AudioHardware.cpp:1635-1739 | A route into an FM endpoint leaves the seven pin registers and the seven codec registers at the values the source lists; one out of it, with FM off, the pins at the others. |
| RoutingCalls.FmOnIsReady | libaudio/AudioHardware.cpp:1850-1893 | Switching FM on with every request answered well: session open, the FM endpoint of the path and outputs in use with nothing muted, pins and codec set up. |
| RoutingCalls.ParametersAreTaken | libaudio/AudioHardware.cpp:1306-1392 | Every key takes effect, an early TTY key keeps FM as it was, and nothing else the framework asked for changes. |
| RoutingCalls.ParametersRoute | libaudio/AudioHardware.cpp:1306-1392 | Unless a TTY key ends the call early, the endpoint in use is then the preferred one of the new state, where that exists. |
| RoutingCalls.OutputsAreTaken | libaudio/AudioHardware.cpp:2452-2473 | A routing key names the outputs before its parameters are taken. |
| RoutingProofs.RouteAfterForgetting | libaudio/AudioHardware.h:210-210 | A route after the current device was forgotten takes the preferred endpoint, and when it reports success leaves the device and mutes that mode, FM, built-in microphone and mute switch call for; it does so whenever the requests to the sound endpoint succeed. |
| RoutingProofs.LeavingFmReturnsPins | libaudio/AudioHardware.cpp:1979-1986 | If the register writes succeed, leaving an FM endpoint for another with FM off returns the pins to Bluetooth. |
| RoutingProofs.LostPinsStayLost | libaudio/AudioHardware.cpp:1959-1980 | After the losing call, switching FM on again for the same endpoint does not move the pins back. |
| RoutingProofs.CarKitLosesPins | libaudio/AudioHardware.cpp:2081-2083 | With no car kit endpoint, on either FM path, a concrete run of five calls whose register writes succeed ends with FM on and the pins elsewhere. |
| SoundEndpoints.EndpointTable.GetSoundEndpoints | libaudio/AudioHardware.cpp:234-331 | The lookup stores the id the driver gave the last exact name, else the first substitute behind it, else the plain fallback for FM. |
| SoundEndpoints.NotedIsFound | libaudio/AudioHardware.cpp:248-309 | One more reported endpoint updates a field as the scan does. |
| SoundEndpoints.PlainFieldsAreNamed | libaudio/AudioHardware.cpp:248-269 | The last endpoint of a plain name has the field of that name; the car kit never gets one. |
| SoundEndpoints.FmFieldsAreNamed | libaudio/AudioHardware.cpp:281-309 | So has the last endpoint named for FM, under either name. |
| SoundEndpoints.PlainStandsInForFm | libaudio/AudioHardware.cpp:310-324 | Without any FM name the plain headset and speaker stand in on both paths. |
| SoundEndpoints.FmDistinctExactly | libaudio/AudioHardware.cpp:281-324 | The FM endpoints are apart from all others if and only if the driver offers an FM headset and an FM speaker, and what it offers for FM has ids that are not negative and not those of CURRENT or of another endpoint. |
| SoundEndpoints.CurrentDistinctExactly | libaudio/AudioHardware.cpp:248-269 | CURRENT is never also the endpoint of a route if and only if the driver gives it an id of its own. |
| SoundEndpoints.OwnIdsFit | libaudio/AudioHardware.cpp:248-324 | For a driver that gives every endpoint its own id the names alone decide: an FM headset and an FM speaker are enough. |
| SoundEndpoints.SharedIdsCollide | include/linux/msm_audio.h:214-226 | A driver that reports both FM names and shares an id with the headset: the endpoints coincide. |
| SoundEndpoints.NumberedFits | libaudio/AudioHardware.cpp:248-324 | A driver of four numbered endpoints whose FM endpoints are fit. |
| SoundEndpoints.EveryFmDriverCanLosePins | libaudio/AudioHardware.cpp:234-331 | No driver gives the HAL a car kit endpoint, so for every driver whose FM endpoints are fit, and on either FM path, the losing run exists. |
| AudioHardware.AudioHal.RunBtFmPinSwitch | libaudio/AudioHardware.cpp:1635-1651 | The two loops write the two register groups in order up to the first failure. |
| AudioHardware.AudioHal.DoAudioRouteOrMute | libaudio/AudioHardware.cpp:1944-1990 | Takes the routing step. |
| AudioHardware.AudioHal.BuildEnableMask | libaudio/AudioHardware.cpp:1031-1058 | Clearing bit by bit gives the mask of exactly the wanted filters. |
| AudioHardware.AudioHal.EnablePostProc | libaudio/AudioHardware.cpp:986-1155 | Takes the post-processing step: coefficients, then mask. |
| AudioHardware.AudioHal.SelectOutput | libaudio/AudioHardware.cpp:2032-2150 | The branches choose the first applicable entry of the priority lists for device and mask. |
| AudioHardware.AudioHal.DoRouting | libaudio/AudioHardware.cpp:1992-2183 | Takes the routing step for outputs or for an input; what that step does is OutputIsPreferred, InputIsPreferred, RouteSwitchesFilters and RouteSetsSound. |
| AudioHardware.AudioHal.SetMode | libaudio/AudioHardware.cpp:1264-1273 | A mode the base class accepts is set and the current device forgotten; a refused one changes nothing; what always holds is kept. |
| AudioHardware.AudioHal.SetMicMuteNosync | libaudio/AudioHardware.cpp:1297-1304 | Routes CURRENT exactly when the mute changes, and keeps what always holds. |
| AudioHardware.AudioHal.CheckMicMute | libaudio/AudioHardware.cpp:2185-2193 | Mutes the microphone outside calls, and keeps what always holds. |
| AudioHardware.AudioHal.SetParametersOf | libaudio/AudioHardware.cpp:1306-1392 | The keys in their order, with the early return for a TTY key outside a call, keep what always holds. |
| AudioHardware.AudioHal.SetOutputParameters | libaudio/AudioHardware.cpp:2452-2473 | A routing key sets the devices, hands the parameters on and routes, and keeps what always holds. |
| AudioHardware.AudioHal.StartInput | libaudio/AudioHardware.cpp:2754-2758 | Starting a capture forgets the device and routes for the input, and keeps what always holds. |
| AudioHardware.AudioHal.StandbyInput | libaudio/AudioHardware.cpp:2822-2844 | Capture standby forgets the device and routes for the outputs, and keeps what always holds. |
| PcmOut.PushTakesAPrefix | libaudio/AudioHardware.cpp:2361-2377 | For any pattern of short writes and EAGAIN the driver takes a prefix, and the loop ends normally exactly when it is everything. |
| PcmOut.PushUses | libaudio/AudioHardware.cpp:2361-2377 | Which answers the write loop uses up, how many bytes they take, and that each EAGAIN among them is counted. |
| PcmOut.RunIsValid | libaudio/AudioHardware.cpp:2309-2416 | On every run: standby exactly when no descriptor is open, at most one start per descriptor, and the flag is up exactly when start succeeded on the open descriptor or a stream was replaced while playing. |
| PcmOut.FlagIsExact | libaudio/AudioHardware.cpp:2379-2416 | Without a replacement of an open stream the flag says exactly that start succeeded on the open descriptor. |
| PcmOut.FlagGoesStale | libaudio/AudioHardware.cpp:2294-2297 | A run that leaves the flag up with nothing open. |
| PcmOut.InvalidFdIsUnreachable | libaudio/AudioHardware.cpp:2362-2366 | The branch for an invalid descriptor is dead on every run. |
| PcmOut.StartIsIssuedOnTheSecondBuffer | libaudio/AudioHardware.cpp:2379-2398 | Start is issued if and only if the write is the second to complete on its descriptor; the flag and the HAL call follow its outcome. |
| PcmOut.RunDelivers | libaudio/AudioHardware.cpp:2361-2377 | Over any run the driver receives the completed buffers whole and in order, with a prefix of each failed one between them. |
| PcmOut.StreamOut.FeedDriver | libaudio/AudioHardware.cpp:2361-2377 | The write loop hands over what the specification says. |
| PcmOut.StreamOut.OpenDriver | libaudio/AudioHardware.cpp:2322-2359 | Opening from standby; a half-opened node is closed. |
| PcmOut.StreamOut.WriteBuffer | libaudio/AudioHardware.cpp:2309-2400 | One write takes the stream's step and makes exactly the HAL calls of that step. |
| PcmOut.StreamOut.EnterStandby | libaudio/AudioHardware.cpp:2402-2416 | Standby takes the stream's step. |
| AacCapture.DecodesExactlyWithoutGaps | libaudio/AudioHardware.cpp:2768-2820 | For every request of 6 to 65543 bytes: a reader recovers exactly the driver's chunks for all old contents if and only if among the driver's answers to the call no EAGAIN came before a chunk. |
| AacCapture.ItemsAreAnswers | libaudio/AudioHardware.cpp:2777-2813 | Pass i of the loop leaves a gap exactly when answer i is EAGAIN, and a frame exactly when it is a chunk. |
| AacCapture.ChunksAreAnswers | libaudio/AudioHardware.cpp:2784-2798 | A chunk is the front of the driver's answer, and all of it unless it fills the room left. |
| AacCapture.WhyItEnds | libaudio/AudioHardware.cpp:2777-2815 | A call ends without room for a size and a byte, at the end of the data, at an error, or behind the first chunk of all, each exactly then. |
| AacCapture.HeaderBytes | libaudio/AudioHardware.cpp:2768-2775 | The buffer begins with the letters MOCQ and the number of chunks, low byte first. |
| AacCapture.FrameBytes | libaudio/AudioHardware.cpp:2777-2798 | A frame is its size, low byte first, and then its bytes. |
| AacCapture.AgainThenChunkMisleads | libaudio/AudioHardware.cpp:2809-2813 | A driver that answers EAGAIN and then one byte, over a buffer of 0xFF: the byte is lost to every reader. |
| AacCapture.ReadsBack | libaudio/AudioHardware.cpp:2768-2820 | A driver that never answers EAGAIN is read back exactly. |
| AacCapture.LargerRequestsLose | libaudio/AudioHardware.cpp:2795-2798 | Above that size a chunk of 65536 bytes is lost. |
| AacCapture.StoresInsideExactly | libaudio/AudioHardware.cpp:2774-2784 | Whatever the driver answers, all indices stored to are inside the request if and only if it has at least 6 bytes; below, the count left wraps in 32 bits. |
| AacCapture.ImageKeeps | libaudio/AudioHardware.cpp:2768-2820 | What a call leaves at any index it does not store to is what was there. |
| AacCapture.FramesOfLaid | libaudio/AudioHardware.cpp:2777-2798 | Sized frames laid one behind the other read back as the chunks. |
| AacCapture.GapMisleads | libaudio/AudioHardware.cpp:2809-2813 | Two skipped bytes over old 0xFF bytes mislead every reader. |
| AacCapture.Loop | libaudio/AudioHardware.cpp:2777-2815 | The loop terminates for every driver and lays out no more than the request. |
| AacCapture.StreamIn.ReadAac | libaudio/AudioHardware.cpp:2731-2820 | For every request the method leaves exactly the specified image in the memory behind the pointer and the rest alone, returns the request, or -1 when a read failed for another reason than EAGAIN, and keeps offset plus remaining at each loop head. |
| SampleRate.GetInputSampleRate | libaudio/AudioHardware.cpp:2226-2238 | The loop with its early break computes the search in 32-bit arithmetic. |
| SampleRate.SearchIsNearest | libaudio/AudioHardware.cpp:2232-2235 | The early exit is right for every strictly increasing table while no difference wraps. |
| SampleRate.AnswerIsNearest | libaudio/AudioHardware.cpp:2226-2238 | For every 32-bit request the answer is at minimum distance, the larger rate on a tie, if and only if the request is at most 2^31 + 9512. |
| SampleRate.FixedPoints | libaudio/AudioHardware.cpp:2531-2535 | A request is answered with itself exactly when it is a supported rate. |
| SampleRate.IndexInvertsTheTable | libaudio/AudioHardware.cpp:1157-1171 | The k-th rate has index k, every answer has an index, any other rate has none. |
| Nv21.Convert | patches/frameworks_base_camera.patch:226-249 | For every width, height and stride for which the frame holds what is read, the loops produce the per-pixel image, then for an odd width exactly one more pixel, and touch nothing behind; at each (x, y) the three fields are the truncations of channels within 1 of the exact colour of that pixel's Y, V and U. |
| Nv21.ConvertRow | patches/frameworks_base_camera.patch:232-247 | One row of pairs behind the rows already there, for any width. |
| Nv21.ConvertPair | patches/frameworks_base_camera.patch:233-246 | Two neighbours from shared chroma bytes. |
| Nv21.ImageAt | patches/frameworks_base_camera.patch:228-242 | Pixel (x, y) has its own luma and the chroma of row y/2 and the even column at or before x. |
| Nv21.ImageShows | patches/frameworks_base_camera.patch:226-249 | The same of the image: red, green and blue fields against the exact colour of the luma byte at (x, y), the V of row y/2 at the even column and the U behind it. |
| Nv21.StoresInOrder | patches/frameworks_base_camera.patch:228-246 | For an even width each pixel is stored once, in order, and nothing else. |
| Nv21.InsideExactlyWhenEven | patches/frameworks_base_camera.patch:232-246 | The stores stay inside the image if and only if the width is even or there are no rows. |
| Nv21.DecodeIsTheInverse | patches/frameworks_base_camera.patch:223-236 | The reference colours are the two-sided inverse of the matrix in section 2.5 of ITU-R BT.601. |
| Nv21.ChannelsAreClose | patches/frameworks_base_camera.patch:237-243 | For every Y, U, V each 8-bit channel is within 1 of the exact colour. |
| Nv21.IntermediatesAreSmall | patches/frameworks_base_camera.patch:235-240 | No intermediate needs more than 18 bits and a sign. |
| Nv21.PackSplits | patches/frameworks_base_camera.patch:244-244 | The packed value splits back into the truncated 5, 6 and 5 bit channels. |
| Nv21.PackedFields | patches/frameworks_base_camera.patch:243-245 | Red over 8 in the top five bits, green over 4 in the next six, blue over 8 in the last five. |
| FmHandover.ServerStepKeeps | fminit/fminit.c:104-149 | Every step of an instance, in any interleaving, keeps the invariant. |
| FmHandover.ClientStepKeeps | patches/frameworks_base_android_hardware_fm_qcom.cpp:137-175 | So does every step of a client. |
| FmHandover.Safety | fminit/fminit.c:112-143 | On every run at most one instance is past its bind, and a client holding a descriptor from an instance holds that instance's one open file, after its load attempt ended. |
| FmHandover.FirmwareExactly | fminit/fminit.c:121-130 | While an instance lives past its load, every other open was a client's, and its firmware is loaded if and only if the load succeeded and no client opened the driver since. |
| FmHandover.FirmwareStays | patches/frameworks_base_android_hardware_fm_qcom.cpp:34-37 | While no client opens directly, the driver is not opened again and loaded firmware stays. |
| FmHandover.CalmRunServesAll | patches/frameworks_base_android_hardware_fm_qcom.cpp:43-60 | While nothing goes wrong with an instance no client falls back and its firmware and open survive every interleaving; that each is served is FmDelivery.ConnectedIsServed. |
| FmDelivery.FirstComeFirstServed | fminit/fminit.c:136-149 | In any interleaving that leaves the instance and the client's socket alone, a client to be served in round k has the instance's file from the k-th accept and send on, and keeps its place before. |
| FmDelivery.ConnectedIsServed | fminit/fminit.c:136-149 | On every run a client that connects is served in the round its place in line says: those queued before it, the one being sent to, then itself. |
| FmDelivery.ThenHolds | patches/frameworks_base_android_hardware_fm_qcom.cpp:50-101 | A client that has the file on its socket holds it when it receives. |
| FmDelivery.ServedInTurn | fminit/fminit.c:92-149 | A serving instance serves the client at place k by k accepts and sends, and the client then holds its file. |
| FmDelivery.DroppedOpensItself | patches/frameworks_base_android_hardware_fm_qcom.cpp:137-169 | When the instance ends, a client still waiting opens the driver itself: the next open, with the firmware wiped. |
| FmDelivery.OpenThenLoad | fminit/fminit.c:104-136 | An instance's open is the next of the driver and wipes the firmware; its load leaves it there exactly when it worked. |
| FmHandover.ConnectLoop | patches/frameworks_base_android_hardware_fm_qcom.cpp:61-67 | The retry loop stops at the first connect that succeeds, after 60 at most. |
| FmHandover.Acquire | patches/frameworks_base_android_hardware_fm_qcom.cpp:61-70 | In any interleaving with the others the client's loop ends at its first attempt that finds an instance, waiting for the descriptor, or at its 60th, falling back. |
| FmHandover.GivesUpAtSixty | patches/frameworks_base_android_hardware_fm_qcom.cpp:61-70 | Without an instance a client falls back at its 60th attempt and not before. |
| CameraParams.SanitizeIsIdempotent | libcamera/Y210CameraWrapper.cpp:425-485 | Sanitizing twice is sanitizing once, for every parameter map. |
| CameraParams.CacheKeeps | libcamera/Y210CameraWrapper.cpp:425-485 | An accepted value survives sanitizing for every key but nine named ones and the texts other than two; those have the seed. |
| CameraParams.DelegatedAgrees | libcamera/Y210CameraWrapper.cpp:818-895 | After every delegated call cache and sent map agree on all eight keys, and neither holds a 432x320 preview. |
| CameraParams.CacheHolds432Exactly | libcamera/Y210CameraWrapper.cpp:849-886 | A 432x320 preview ends up cached if and only if it is asked for on a call that is not delegated. |
| CameraParams.SentDependsOnTheEight | libcamera/Y210CameraWrapper.cpp:487-518 | The sent map depends on eight application keys alone; the recording hint is not one of them. |
| CameraParams.EachOfTheEightMatters | libcamera/Y210CameraWrapper.cpp:139-154 | It depends on each of them. |
| CameraParams.RunIsConsistent | libcamera/Y210CameraWrapper.cpp:818-921 | On every run no sent map holds a 432x320 preview, and after a delegated call the cache is the one that agrees with what was sent. |
| CameraWrapper.StepKeeps | libcamera/Y210CameraWrapper.cpp:231-341 | Every open, call, callback, release and dropped reference keeps the invariant. |
| CameraWrapper.OneUsableWrapper | libcamera/Y210CameraWrapper.cpp:231-269 | On every run at most one live wrapper is usable and the singleton names it; every vendor object is released at most once and never called after. |
| CameraWrapper.CreateReturnsTheUsableOne | libcamera/Y210CameraWrapper.cpp:231-269 | Opening gives the usable wrapper if there is one, otherwise a fresh one or none. |
| CameraWrapper.NoDeliveryAfterRelease | libcamera/Y210CameraWrapper.cpp:297-341 | Once a wrapper is released no callback that still arrives reaches the client. |
| CameraHistory.FirePassesOn | libcamera/Y210CameraWrapper.cpp:297-341 | A callback that arrives is passed on, and counted under its kind, exactly when the client set the callback of that kind. |
| CameraHistory.StateIsHistory | libcamera/Y210CameraWrapper.cpp:297-981 | On every run of a fresh wrapper: the callbacks passed on are, kind by kind, those that arrived while the last registration had that kind and no release came; preview and recording are on exactly when started with success and not ended since; released exactly when release was called. |
| CameraWrapper.DanglesExactly | libcamera/Y210CameraWrapper.cpp:291-295 | A step leaves a vendor object holding shims of a wrapper that is gone exactly when it did before, or drops the last reference to a wrapper neither released nor without callbacks while somebody else keeps the vendor object. |
| CameraWrapper.DanglesAfterUncleanDrop | libcamera/Y210CameraWrapper.cpp:291-295 | At the end of a run such a vendor object exists if and only if some wrapper went that way. |
| CameraWrapper.ApplyKeeps | libcamera/Y210CameraWrapper.cpp:556-642 | No guarded call reaches a released vendor object; only release ends usability. |
| CameraWrapper.CallsMade | libcamera/Y210CameraWrapper.cpp:556-981 | How many calls of the vendor object each call of a usable wrapper makes. |
| CameraWrapper.Camera.ReleaseAll | libcamera/Y210CameraWrapper.cpp:939-981 | Stops a running preview, clears the callbacks, then releases, once. |
| CameraWrapper.Camera.SetCallbacksTo | libcamera/Y210CameraWrapper.cpp:580-598 | Stores the callbacks and registers the shims for them. |
| CameraWrapper.Camera.BeginPreview | libcamera/Y210CameraWrapper.cpp:615-643 | One retry after an error other than an invalid operation; the last answer is returned, and the preview runs exactly when it was good. |
| CameraWrapper.Camera.EndPreview | libcamera/Y210CameraWrapper.cpp:687-704 | Calls the vendor object only when running. |
| CameraWrapper.Camera.BeginRecording | libcamera/Y210CameraWrapper.cpp:712-733 | The answer is returned, and recording runs exactly when it was good. |
| CameraWrapper.Camera.EndRecording | libcamera/Y210CameraWrapper.cpp:735-745 | Calls the vendor object and clears the flag. |
| CameraWrapper.Camera.Arrive | libcamera/Y210CameraWrapper.cpp:297-341 | The shims pass a callback on exactly when the client set it, by CameraHistory.FirePassesOn; a compressed image ends the preview. |
| CameraWrapper.Camera.SanitizeParameters | libcamera/Y210CameraWrapper.cpp:425-485 | The copying loop computes the sanitized map. |
| CameraWrapper.Camera.BuildDelegatedParameters | libcamera/Y210CameraWrapper.cpp:487-518 | The loop copies the delegatable candidates over the seed. |
| CameraWrapper.Camera.SetParameters | libcamera/Y210CameraWrapper.cpp:818-895 | Cache and sent map change as specified, and the vendor object is called once, only when delegated. |
| CameraWrapper.Camera.GetParameters | libcamera/Y210CameraWrapper.cpp:897-921 | The cache, or the seed, which a usable wrapper then caches. |
| PolicyDevice.GetDeviceForStrategy | libaudio/AudioPolicyManager.cpp:47-214 | The switch with its recursion terminates and gives the first available device of the strategy's priority list. |
| PolicyDevice.SelectPhone | libaudio/AudioPolicyManager.cpp:69-124 | The call branches follow the call list. |
| PolicyDevice.SelectMedia | libaudio/AudioPolicyManager.cpp:147-187 | The media branches follow the media list. |
| PolicyDevice.FirstIs | libaudio/AudioPolicyManager.cpp:69-186 | The choice from a list is the available entry with none available before it. |
| PolicyDevice.PlainCases | libaudio/AudioPolicyManager.cpp:83-108 | Without a forced device: wired, then A2DP outside calls, then the speaker while ringing; the earpiece only when none of these is there. |
| PolicyDevice.PhoneCases | libaudio/AudioPolicyManager.cpp:68-128 | A forced speaker gives way to the car kit and outside calls to an A2DP speaker; forced Bluetooth takes the car kit, the headset, the plain link, then the plain order. |
| PolicyDevice.MediaCases | libaudio/AudioPolicyManager.cpp:151-186 | Media: a forced speaker, auxiliary digital, open A2DP, wired, speaker, earpiece. |
| PolicyDevice.MediaOutsideCalls | libaudio/AudioPolicyManager.cpp:131-203 | Outside a call media gets that and the FM bits with any FM device, ringing the speaker. |
| PolicyDevice.AtMostOneDevice | libaudio/AudioPolicyManager.cpp:47-214 | Apart from the FM bits the choice is at most one device, and available. |
| PolicyDevice.InCallMediaWithFm | libaudio/AudioPolicyManager.cpp:188-203 | Within a call and with an FM device available, media gets its devices with the FM bits exactly when the call is cached on just those, else nothing; so nothing whenever the call is on none of the FM bits. |
| PolicyDevice.InCallMediaWithoutFm | libaudio/AudioPolicyManager.cpp:188-203 | Within a call and without FM devices, media gets the first A2DP device exactly when A2DP is open and available and nothing comes before it, else its own device exactly when the call is cached on just that, else nothing. |
| PolicyDevice.MediaIsA2dp | libaudio/AudioPolicyManager.cpp:147-187 | When the media list chooses an A2DP device. |
| PolicyDevice.TonesFollowTheCall | libaudio/AudioPolicyManager.cpp:57-110 | Within a call tones go where the call goes if and only if no car kit is taken for it. |
| PolicyDevice.StrategiesThatFollow | libaudio/AudioPolicyManager.cpp:56-145 | Which strategies coincide within and outside calls. |
| FontRle.Decode | recovery/graphics.c:288-292 | The decoder writes exactly the concatenation of its runs, at exactly the indices of those runs in order, and stops behind the zero byte. |
| FontRle.EmptyRunIsSkipped | recovery/graphics.c:289-291 | Only a zero byte ends the data; a run of no pixels does not. |
| FontRle.ByteRuns | recovery/graphics.c:283-292 | A byte up to 127 is that many pixels of 0, one of 128 + n is n pixels of 255. |
| FontRle.InsideExactlyWhenShort | recovery/graphics.c:278-292 | What the decoder writes stays inside the bitmap if and only if its runs add up to at most width times height. |
| FontRle.DecodeInvertsEncode | recovery/graphics.c:288-292 | Decoding inverts an encoder that splits runs at 127 pixels, for every bitmap. |

## Left out

- FilterLoader.Loader.Load: what a search that has left the mapping finds there is not modelled; it ends with an outcome of its own.
- FilterConfig.LoadMeans: takes the lines of a file whose mapping has a NUL; the case in which the search leaves the mapping is decided by FilterLoader.Loader.Load.
- FilterLoader.Loader.ParseEq: the vendor equalizer is a parameter, a function of one band's four words.
- AudioHardware.AudioHal.DoAudioRouteOrMute: the modes that count as a call are a parameter, because the base class that decides is not part of this model.
- AudioHardware.AudioHal.SetFmOnOff: the DAC configuration process and the register read-backs, which change no state of the HAL, are not modelled.
- AudioHardware.AudioHal.SetParametersOf: which endpoint a headset name matches is a parameter, its id, or 0.
- FilterConfig.BadFileEnablesNothing: whether the file can be opened and mapped, and whether the endpoints could be read before it, is a parameter.
- PolicyDevice.InCallMediaWithoutFm: the framework's test for an A2DP device is not part of this model; it is taken to be one device, and that an A2DP one.
- PcmOut.StreamOut.WriteBuffer: the number of answers of the driver is finite; a write whose answers run out is still waiting, and the properties cover that state.
- AacCapture.StreamIn.ReadAac: the stream is already started; PCM and AMR capture, and the configuration of the capture node, are not modelled. For a request below 6 bytes the buffer is the memory from the pointer on, as far as the wrapped count reaches.
- Nv21.Convert: the source is a sequence, so overlapping source and destination buffers are not modelled.
- CameraWrapper.OneUsableWrapper: wrappers, reference counts and the weak singleton are values here, because object lifetime by reference count has no class form; when a vendor object is left with shims of a destroyed wrapper is proved, what its callbacks then do is not modelled, and one kept by somebody else when its wrapper goes is taken to be kept from then on; each open of the vendor library is taken to make a fresh object.
- FmHandover.Safety: processes are steps of a state machine; the firmware loader is taken to end with its instance, and a client's other device paths are not modelled.
- FontRle.DecodeInvertsEncode: the repository has no encoder; the one here is a reference.
- RoutingProofs.RunKeeps: output routing while an output stream is being opened or closed by another thread; public calls are atomic.
- The pre-processing switch, which hands tables to the DSP by sample rate without choosing between filters.
- Volume arithmetic of the HAL and of the policy manager: one-line quantisation over framework code that is not part of this model.
- The FM branches of output routing behind the first FM test, which that test makes unreachable.
- The rest of the recovery graphics, the lights, the radio interface layer and the FM tuner tool: small branches without state between calls.
