# Verified model of the head unit's drivers and of the tree reconstruction

A Dafny model of the parts of this repository that are hardest to get right, with proofs of what
they promise: the camera and overlay message handler, the two bit-banged wire protocols, audio
source switching and the power count, the scripts that rebuild the vendor tree from patches, and
several small routines with awkward arithmetic or in-place updates. `dafny verify dfyconfig.toml`
checks everything.

## What is modelled

- **Camera** (`BackviewView.dfy`, `BackviewFacts.dfy`, `Backview.dfy`). The handler
  is a class whose methods update the fields the driver updates, in its order; each method is proved to have the effect of a one-line
  function on a *view*, and invariants and runs are proved about views. Layers are booleans. What a
  handler reads from the rest of the system (call, power, decoder, configuration) is a parameter of
  the message.
- **UV calibration** (`UvScan.dfy`). Two scans over twelve register settings, for arbitrary
  readings and arbitrary completion of each poll.
- **Links** (`DvdLink.dfy`, `McuLink.dfy`, on `Interleave.dfy`, `Wires.dfy`, `Powers.dfy`, `Bytes.dfy`). Each
  routine is a step machine, one step for each pin access and each poll. A wire nobody drives is
  high. The routines are composed and every interleaving is considered; exits, success and
  failure are also proved against an arbitrary other end with arbitrary timeouts, by scripts of the
  levels each routine polls (`Scripts.dfy`, `DvdOutcome.dfy`, `McuOutcome.dfy`), and whole lists of
  words over the DVD link (`DvdStream.dfy`).
- **Timeouts** (`Timeouts.dfy`), **circular lists** (`RingList.dfy`), **serial-port frames**
  (`VsFrame.dfy`), **RDS frequency lists** (`RdsAf.dfy`), **volume and balance**
  (`Volume.dfy`), **display rate** (`Fps.dfy`).
- **Audio** (`AudioSwitch.dfy`, `AudioRoutes.dfy`, `PowerCount.dfy`). Enter and exit commands, with the order in which
  the mute pin, the sources and the routing are touched; phone and AJX commands with the car
  messages that count power holders. `car_add_work` with flush set is a call.
- **Reconstruction** (`Trees.dfy`, `GenPatches.dfy`, `Completeness.dfy`). A tree maps paths to
  content, a patch replaces the content of one path and applies only to the content it was made
  from. The set of reported paths is a parameter constrained only to hold real differences, because
  the comparison leaves out directories that exist on one side.

## What turned out not to hold

Each of these is kept as the code has it, with the exact condition proved.

- A source request with channel 0 while no video mode is set leaves a source without a mode. The
  picture is lost only later, when a message takes the last other wish from it; naming channels is
  enough to avoid that, and the ioctl that sends the request always does
  (`BackviewView.NextSteps`, `BackviewView.RunsKeepPicture`).
- Message 66 while reversing, and reversing that takes over a bare signal input, restart the camera
  under the open overlay. No other message does (`BackviewView.GlitchesAreLiveSwitches`).
- During a call a DVD that is left is stopped but stays named, and cannot be entered again until
  another channel is; a tuner that pops is cut off without the mute pin (`AudioSwitch.DvdStaysOff`,
  `AudioSwitch.CommandIsQuiet`).
- A phone mode that is a non-zero multiple of 256 would leave the power held; the callers send 0 to 3
  only (`PowerCount.VanishingLeaks`; src/drivers/misc/mtc/car.c:3508-3528).
- The patch generator stops on a selected path whose base file is binary or that is a new empty
  file (`GenPatches.PatchIsMade`).
- The fast scan equals the full check only while overlay files, and the last patches of the other
  files it trusts, have T9's content (`Completeness.ScanIsFullCheck`).
- A frame of more than 255 payload bytes has a truncated count, so the reader cannot recover it
  (`VsFrame.ReaderRecovers`).
- A code above 255 can repeat a byte in the frequency list, or leave its length byte one too high.
  The newer radio driver passes a whole 16-bit word (src/drivers/misc/mtc/radio_tef6606.c:1625-1665)
  (`RdsAf.RunsKeepProper`, `RdsAf.WordRepeatsCode`).
- Polls too far apart can pass a timeout unnoticed (`Timeouts.SafeGaps`, `Timeouts.DriverGaps`).
- Volume 100 exceeds a maximum of 80 or more (`Volume.VolumeWithinMaximum`).
- A display whose total and period are too small has a rate that does not fit the int returned
  (`Fps.CalcIsClose`).
- The comment above the balance arithmetic speaks of a division by 6; the code divides 14(o + 1) by
  28, and the model follows the code.

## Model

| member | source | states |
|---|---|---|
| `Backview.PowerUp` | src/drivers/misc/mtc/backview.c:1138-1600 | from power-up, after any run of messages: gate and overlay layer 1 agree, each of five clocks is enabled once exactly while the gate is set, reversing and signal are never both set, the front session implies reversing, layer 0 is open without them, the overlay is open for reversing, signal and status view and never when nobody wants the picture; the picture is shown exactly when reversing, the signal, the status view or a playing source wants it, at every message boundary, if and only if no message leaves a source without a video mode all there is to show, for which naming channels is enough |
| `Backview.Camera.CaptureWork` | src/drivers/misc/mtc/backview.c:1138-1600 | the field-by-field handler of all messages modelled has, on every state that is valid between messages, exactly the effect of the one-line view of that message, and keeps gate, clocks and overlay in step |
| `Backview.Camera.Serve` | src/drivers/misc/mtc/backview.c:1138-1600 | a run of messages on the object is the run on the views |
| `Backview.Camera.constructor` | src/drivers/misc/mtc/backview.c:1138-1145 | power-up: nobody wants the picture, the user interface is open, the camera is off |
| `Backview.Camera.CameraStart` | src/drivers/misc/mtc/backview.c:1892-1918 | starting enables gate, poll and each clock once, whether or not the camera ran; a running camera is stopped first, and counted as restarted |
| `Backview.Camera.CameraStop` | src/drivers/misc/mtc/backview.c:1743-1763 | stopping a running camera disables each clock once and cancels the poll; stopping a stopped one changes nothing |
| `Backview.Camera.VideoChannel` | src/drivers/misc/mtc/backview.c:1997-2050 | the branches over three video-mode cases choose the route the view of the message asks for; which camera that is for each message is BackviewFacts.RoutesAfter |
| `BackviewFacts.RoutesAfter` | src/drivers/misc/mtc/backview.c:1138-1600 | with literal routes: message 56 brings up the rear camera; 60, 66 and 57 the front camera where there is one and it is selected, else the rear; 54 the side camera; 52 front or side by its argument; 46 the source asked for; when a wish ends, the status view's camera or the source; no other message, and no message ignored, brings up a camera |
| `BackviewFacts.SwapExchanges` | src/drivers/misc/mtc/backview.c:1561-1582 | message 66 exchanges front and rear exactly where there is a front camera |
| `BackviewFacts.ShownCamera` | src/drivers/misc/mtc/backview.c:1997-2050 | over every run from power-up: reversing shows the rear camera, or the front one if it is selected and there is one; else the signal shows the side camera; else the status view the front or the side camera |
| `BackviewFacts.FlagsAfter` | src/drivers/misc/mtc/backview.c:1138-1600 | flag by flag, which messages set and clear it and that no other message changes it: the wishes, the reversing session, radar, status view, video mode, layer 0, backlight and camera switch |
| `BackviewFacts.LastWordDecides` | src/drivers/misc/mtc/backview.c:1333-1518 | over every run, reversing holds exactly when the last of messages 56 and 59 was 56, and the status view is wanted exactly when the last of 52 and 53 was 52 |
| `BackviewFacts.PollAgain` | src/drivers/misc/mtc/backview.c:1538-1550 | message 61 changes nothing while the picture is as wanted |
| `Backview.Camera.OnReverse` | src/drivers/misc/mtc/backview.c:1416-1469 | message 56: a reversing session starts, or falls back from the front to the rear camera, or the message is ignored |
| `Backview.Camera.OnReverseGone` | src/drivers/misc/mtc/backview.c:1492-1518 | message 59: the picture goes to whoever still wants it, and the backlight goes off when nobody holds the power |
| `Backview.Camera.OnSignal` | src/drivers/misc/mtc/backview.c:1379-1395 | message 54: the signal input takes the screen and hides the user interface |
| `Backview.Camera.OnSignalGone` | src/drivers/misc/mtc/backview.c:1397-1414 | message 55: the screen goes back to the status view or the source |
| `Backview.Camera.OnStatus` | src/drivers/misc/mtc/backview.c:1333-1365 | message 52, with its jumps into shared tails |
| `Backview.Camera.OnStatusGone` | src/drivers/misc/mtc/backview.c:1367-1377 | message 53 |
| `Backview.Camera.OnSetMode` | src/drivers/misc/mtc/backview.c:1147-1174 | message 46: an old source is dropped, an unknown mode becomes 0, the route is chosen again |
| `Backview.Camera.OnSource` | src/drivers/misc/mtc/backview.c:1176-1185 | message 48 |
| `Backview.Camera.OnFront` | src/drivers/misc/mtc/backview.c:1520-1536 | message 60 |
| `Backview.Camera.OnSwap` | src/drivers/misc/mtc/backview.c:1561-1582 | message 66: the camera is restarted without closing the overlay |
| `Backview.Camera.OnWarn` | src/drivers/misc/mtc/backview.c:1471-1482 | message 57 |
| `BackviewView.NextKeepsInv` | src/drivers/misc/mtc/backview.c:1138-1600 | every message keeps the invariant, which includes that a playing source has a video mode, if and only if it is not a source request with channel 0 that finds no video mode |
| `BackviewView.NextSteps` | src/drivers/misc/mtc/backview.c:1138-1600 | on every state in which the screen fails at most a source, a message keeps it so, covers a stopped camera exactly on message 66 while reversing and when reversing takes over a bare signal, restarts a running camera exactly in the latter case, and keeps the picture shown exactly when wanted if and only if it does not take the last other wish from a source without a video mode |
| `BackviewView.RunsKeepPicture` | src/drivers/misc/mtc/backview.c:1138-1600 | over a run the picture is shown exactly when wanted, at every boundary, if and only if no message loses it in that way |
| `BackviewView.ChannelledLosesNothing` | src/drivers/misc/mtc/backview.c:1138-1600 | a run in which no source request finds no video mode and names no channel loses no picture |
| `BackviewView.RunsStaySolid` | src/drivers/misc/mtc/backview.c:1138-1600 | over every run whatever the screen fails at most a source, and the user interface is there unless reversing or the signal replaces it |
| `BackviewView.RunsKeepInv` | src/drivers/misc/mtc/backview.c:1138-1600 | a run keeps the whole invariant at every message boundary if and only if no source request in it finds no video mode and names no channel |
| `BackviewView.BootRunsKeepInv` | src/drivers/misc/mtc/backview.c:1138-1600 | the same from power-up |
| `BackviewView.ZeroChannelLosesThePicture` | src/drivers/misc/mtc/backview.c:1176-1185 | the failing run: source 0, signal on, signal off leaves a source that wants a picture nobody shows |
| `BackviewView.GlitchesAreLiveSwitches` | src/drivers/misc/mtc/backview.c:1138-1600 | over every run the overlay covers a stopped camera once for each live switch and never otherwise, and the camera is restarted once for each take-over |
| `BackviewView.SignalRoundTrip` | src/drivers/misc/mtc/backview.c:1379-1414 | a signal that comes and goes gives every flag, the screen and the user interface back, whatever call, decoder and configuration are meanwhile |
| `BackviewView.ReverseRoundTrip` | src/drivers/misc/mtc/backview.c:1416-1518 | a reversing session gives the screen back to the status view or the source, but the signal input loses it |
| `BackviewView.MaskSelectsSignalAndView` | src/drivers/misc/mtc/backview.c:721-726 | the 32-bit status word under mask 0xFF00FF00 is non-zero exactly when cam_signal or reserved_11 is |
| `UvScan.Calibrator.OnMessage` | src/drivers/misc/mtc/backview.c:1200-1326 | message 50: ignored unless the composite source is shown on this decoder; calibrates, stores or restores by its argument; uv_cal becomes 3 exactly when all measurements of both scans complete, and then fields and registers have the promised values, else 2 and the stored ones |
| `UvScan.Calibrator.Calibrate` | src/drivers/misc/mtc/backview.c:1222-1326 | both scans complete and their results are kept with uv_cal 3, or any missing measurement gives uv_cal 2 and the stored calibration; no candidate is polled more than 24 times; each reading belongs to the setting then in the register |
| `UvScan.Calibrator.Scan` | src/drivers/misc/mtc/backview.c:1233-1275 | one scan of twelve settings: it succeeds exactly when every measurement completes in time, and logs each reading under the register's value |
| `UvScan.Calibrator.Wait` | src/drivers/misc/mtc/backview.c:1238-1248 | a measurement is reported complete exactly when one of the 24 polls finds it so |
| `UvScan.KeptIsChosen` | src/drivers/misc/mtc/backview.c:1250-1275 | the scan's result is u if and only if u is the earliest setting whose reading is nearest to 2048, or 0 when none is nearer than the start value 0x7FFF |
| `UvScan.ScanInNumbers` | src/drivers/misc/mtc/backview.c:1233-1275 | of the settings 96, 100, .. 140 the first whose value is nearest to 2048, or 0 when none is nearer than 30719 |
| `UvScan.ReadingBytes` | src/drivers/misc/mtc/backview.c:1249-1254 | the value is the low byte and 256 times the high byte read |
| `UvScan.CompletesIn24` | src/drivers/misc/mtc/backview.c:1237-1247 | a measurement has 24 polls to complete |
| `UvScan.KeptIsNearest` | src/drivers/misc/mtc/backview.c:1250-1275 | keeping a strictly nearer reading keeps the earliest nearest candidate, by induction over the candidates |
| `UvScan.ChosenIsUnique` | src/drivers/misc/mtc/backview.c:1250-1275 | the promise allows one result |
| `UvScan.Calibrator.SaveAndSet` | src/drivers/misc/mtc/backview.c:1211-1217 | storing a calibration and setting it again are inverse: no value and no register changes |
| `DvdLink.EverySchedule` | src/drivers/misc/mtc/dvd.c:313-568 | after every interleaving of the sending and receiving routine no wire is driven from both ends, the accumulator is the top k bits of the 24-bit word after k samples, nothing but the whole word is delivered, and on completion all wires are released |
| `DvdLink.FairSchedulesDeliver` | src/drivers/misc/mtc/dvd.c:313-568 | every schedule with 10n + 20 rounds completes and delivers (cmd >> (24 - n)) mod 2^n exactly once, for n in 1..24 |
| `DvdLink.Transfer` | src/drivers/misc/mtc/dvd.c:313-568 | under a scheduler that may pick any side that can move, the transfer ends and returns that word |
| `DvdLink.SenderExitsReleased` | src/drivers/misc/mtc/dvd.c:456-568 | against an arbitrary other end, and whichever polls time out, every exit of the sender leaves DATA, STB and ACK released |
| `DvdLink.ReceiverExitsReleased` | src/drivers/misc/mtc/dvd.c:313-430 | the same for the receiver, including when it goes round to wait again |
| `DvdLink.SenderReturns` | src/drivers/misc/mtc/dvd.c:456-568 | against an arbitrary other end the sender returns once enough polls time out |
| `DvdLink.ReceiverReturns` | src/drivers/misc/mtc/dvd.c:313-430 | so does the receiver, to waiting, to the end or to a timeout; which of them, and with which words, is DvdOutcome.ReceiverOutcome |
| `DvdOutcome.SenderOutcome` | src/drivers/misc/mtc/dvd.c:456-568 | over every input sequence the sender ends in success exactly when ACK low, ACK high, for every bit ACK low and high, then STB low and high were found in that order, and in failure exactly when one was missing at a late poll |
| `DvdOutcome.ReceiverOutcome` | src/drivers/misc/mtc/dvd.c:313-430 | over every input sequence the receiver returns success exactly when DATA low and high, for every bit STB low and high, then ACK low and high were found in order and DATA was high at the end, failure exactly when one was missing at a late poll; it delivers exactly one word for each hand-over completed, made of the n levels sampled for it, also when DATA is low again already |
| `DvdStream.EveryStream` | src/drivers/misc/mtc/dvd.c:313-568 | for any list of words sent one after the other, after every interleaving no wire is driven from both ends and the words delivered are the first of those sent; when both sides rest they are all of them |
| `DvdStream.FairStreamsDeliver` | src/drivers/misc/mtc/dvd.c:313-568 | every schedule with 10n + 22 rounds for each word delivers (word >> (24 - n)) mod 2^n of every word, once and in order |
| `DvdStream.HandsOn` | src/drivers/misc/mtc/dvd.c:410-425 | a finished word is handed on whether or not DATA is low again for the next one |
| `DvdStream.StreamNeverStuck` | src/drivers/misc/mtc/dvd.c:313-568 | neither side can move if and only if every word has been handed on |
| `DvdLink.TakingTurnsDelivers` | src/drivers/misc/mtc/dvd.c:313-568 | taking turns is a schedule with enough rounds, so the word is delivered |
| `DvdLink.NeverStuck` | src/drivers/misc/mtc/dvd.c:313-568 | neither side can move if and only if both have returned |
| `DvdLink.SendKeepsInv` | src/drivers/misc/mtc/dvd.c:456-568 | each sender step keeps the joint invariant |
| `DvdLink.RevKeepsInv` | src/drivers/misc/mtc/dvd.c:313-430 | each receiver step keeps the joint invariant |
| `DvdLink.RevSample` | src/drivers/misc/mtc/dvd.c:345-362 | the sample is taken while DATA carries the bit it is meant to be |
| `DvdLink.TopGrows` | src/drivers/misc/mtc/dvd.c:345-362 | shifting in the next bit of the word extends its top bits by one |
| `DvdLink.MovesLowerRank` | src/drivers/misc/mtc/dvd.c:313-568 | every step that changes anything lowers a bound on the steps left |
| `McuLink.EverySchedule` | docs/.naming_backup2/mtc-car.c:266-417 | after every interleaving CLK is not driven from both ends, the received bytes are a prefix of the sent ones and the partial byte a prefix of the next, and on completion both ends are at rest |
| `McuLink.FairSchedulesDeliver` | docs/.naming_backup2/mtc-car.c:532-663 | every schedule with enough rounds delivers exactly the bytes sent, for every byte sequence |
| `McuLink.Transfer` | docs/.naming_backup2/mtc-car.c:532-663 | under a scheduler that may pick any end that can move, the transfer ends and the receiver's buffer is the sender's |
| `McuLink.SenderExitsReleased` | docs/.naming_backup2/mtc-car.c:266-305 | against an arbitrary other end every exit of the sender leaves CLK released and DOUT high |
| `McuLink.ReceiverExitsReleased` | docs/.naming_backup2/mtc-car.c:307-417 | the same for the receiver |
| `McuLink.ReceiverReturns` | docs/.naming_backup2/mtc-car.c:307-417 | against an arbitrary other end the receiver returns once enough polls time out |
| `McuLink.AckReturns` | docs/.naming_backup2/mtc-car.c:266-305 | so does the acknowledgement of the sender; with success or failure is McuOutcome.SenderOutcome |
| `McuOutcome.SenderOutcome` | docs/.naming_backup2/mtc-car.c:266-305 | over every input sequence the send reports success exactly when, after the bytes, DIN high, CLK low and CLK high were found in that order, and failure exactly when one of these was missing at a late poll |
| `McuOutcome.AckNeedsGrant` | docs/.naming_backup2/mtc-car.c:283-302 | if the MCU never pulls CLK low the acknowledgement does not succeed |
| `McuOutcome.ReceiverOutcome` | docs/.naming_backup2/mtc-car.c:307-417 | over every input sequence the receiver succeeds exactly when CLK low and high for every bit and DIN low and high were found in order, fails exactly when one was missing at a late poll, and its buffer holds one byte for each eight levels of DIN sampled |
| `McuLink.ByteLoopWaits` | docs/.naming_backup2/mtc-car.c:631-645 | the byte loop does not: while DIN stays low it waits, whatever the time |
| `McuLink.TakingTurnsDelivers` | docs/.naming_backup2/mtc-car.c:532-663 | taking turns is a schedule with enough rounds, so the bytes are delivered |
| `McuLink.ShiftedOut` | docs/.naming_backup2/mtc-car.c:626-663 | the top bit of the shifted 8-bit register is the bit the receiver expects |
| `McuLink.ShiftedIn` | docs/.naming_backup2/mtc-car.c:307-355 | shifting the received bit in extends the top bits of the byte by one, and eight of them are the byte |
| `McuLink.NeverStuck` | docs/.naming_backup2/mtc-car.c:266-417 | neither end can move if and only if both have returned |
| `McuLink.SendKeepsInv` | docs/.naming_backup2/mtc-car.c:626-663 | each sender step keeps the joint invariant |
| `McuLink.RevKeepsInv` | docs/.naming_backup2/mtc-car.c:307-417 | each receiver step keeps the joint invariant |
| `Timeouts.TimesOutModuloSecond` | src/drivers/misc/mtc/dvd.c:130-144 | the test compares the true elapsed time modulo one second with the limit |
| `Timeouts.NeverEarly` | src/drivers/misc/mtc/dvd.c:130-144 | it never fires before the limit |
| `Timeouts.WaitFor` | docs/.naming_backup2/mtc-car.c:38-50 | with polls less than a second short of the limit apart, every waiting loop ends at the first poll that finds the level or the limit passed |
| `Timeouts.SafeGaps` | docs/.naming_backup2/mtc-car.c:38-50 | a gap between polls can never miss the limit if and only if it is less than a second short of the limit, or what exceeds whole seconds is further than the limit from both ends |
| `Timeouts.DriverGaps` | src/drivers/misc/mtc/dvd.c:130-144 | for the two limits: gaps of up to 0.95 s and 0.75 s, or those further from whole seconds than the limit |
| `Timeouts.DvdWait` | src/drivers/misc/mtc/dvd.c:130-144 | a DVD wait polled at least every 0.95 s ends at the first poll that finds the level or 50 ms gone, within a second |
| `Timeouts.McuWait` | docs/.naming_backup2/mtc-car.c:38-50 | an MCU wait polled at least every 0.75 s, with 250 ms |
| `Timeouts.LateUnnoticed` | src/drivers/misc/mtc/dvd.c:130-144 | for every other gap there is a run that passes the limit unnoticed |
| `AudioSwitch.Card.EnterChannel` | src/drivers/misc/mtc/audio_card_glue.c:858-1173 | the enter/exit routine with its jumps has exactly the effect and the acts of the command; where they lead is stated by the AudioRoutes lemmas |
| `AudioRoutes.WhereItLeads` | src/drivers/misc/mtc/audio_card_glue.c:985-1012 | an enter command names its channel and an exit the system channel 1, unless a DVD is left while a call holds the output |
| `AudioRoutes.OthersAreIgnored` | src/drivers/misc/mtc/audio_card_glue.c:985-1012 | an exit from a channel not named, and an entry to the one named except system and line, do nothing |
| `AudioRoutes.LeavingEndsAtSystem` | src/drivers/misc/mtc/audio_card_glue.c:858-1173 | leaving the named channel with the output free names and routes the system channel and powers no source |
| `AudioRoutes.EnteringRoutes` | src/drivers/misc/mtc/audio_card_glue.c:858-1173 | entering a channel anew with the output free names it and routes it |
| `AudioRoutes.RoutesWhatItNames` | src/drivers/misc/mtc/audio_card_glue.c:858-1173 | the channel last routed stays the one named if and only if the command is not a quick swap and does not name a channel during a call |
| `AudioRoutes.SessionsRouteWhatTheyName` | src/drivers/misc/mtc/audio_card_glue.c:858-1173 | the same after every command of a session |
| `AudioRoutes.TraceEndsAtNamed` | src/drivers/misc/mtc/audio_card_glue.c:858-1173 | the channel last routed in the whole trace of such a session is the one named at its end |
| `AudioRoutes.CommandIsContinuous` | src/drivers/misc/mtc/audio_card_glue.c:998-1172 | a source is started before it is routed and not stopped while it is routed, if and only if the command does not silence a playing source for a call; the powered sources are those started and not stopped |
| `AudioRoutes.SessionsAreContinuous` | src/drivers/misc/mtc/audio_card_glue.c:858-1173 | the same over whole sessions |
| `AudioRoutes.SwapsSilently` | src/drivers/misc/mtc/audio_card_glue.c:982-997 | with the output free the hardware is left alone if and only if Bluetooth kind 2, 6 or 7 changes between phone and system channel |
| `AudioRoutes.PinWhen` | src/drivers/misc/mtc/audio_card_glue.c:1004-1028 | the pin is raised if and only if DTV comes, or FM comes or goes with a tuner not of kind 2 or 4 |
| `AudioRoutes.PinOnlyForClicks` | src/drivers/misc/mtc/audio_card_glue.c:1004-1028 | the pin is raised exactly for a command with an act that clicks |
| `AudioRoutes.LastAct` | src/drivers/misc/mtc/audio_card_glue.c:1139-1172 | a DVD is stopped when the pin is down again, any other source before the pin goes down |
| `AudioRoutes.FlagsFollow` | src/drivers/misc/mtc/audio_card_glue.c:858-1173 | when the mute flag, the delay of the sound and the pin are cleared and set |
| `AudioSwitch.Card.Serve` | src/drivers/misc/mtc/audio_card_glue.c:858-1173 | a session: no source but the named one is powered, the mute pin is low after every command, and what the hardware saw is the stated trace |
| `AudioSwitch.Card.SwitchTo` | src/drivers/misc/mtc/audio_card_glue.c:998-1172 | the pin is raised when either tuner needs it, the new source starts and is routed before the old one stops, and a DVD is stopped after the pin is down |
| `AudioSwitch.NextKeepsNamed` | src/drivers/misc/mtc/audio_card_glue.c:858-1173 | every command keeps: only the named source may be powered; a low mute pin is low again afterwards |
| `AudioSwitch.NextKeepsExact` | src/drivers/misc/mtc/audio_card_glue.c:858-1173 | the named source stays exactly the powered one if and only if the command is not an interrupted switch of a DVD or to a source |
| `AudioSwitch.SessionsKeepNamed` | src/drivers/misc/mtc/audio_card_glue.c:858-1173 | the first over whole sessions, whatever is entered, left or interrupted |
| `AudioSwitch.SessionsKeepExact` | src/drivers/misc/mtc/audio_card_glue.c:858-1173 | the second over whole sessions, as an if and only if |
| `AudioSwitch.CommandIsQuiet` | src/drivers/misc/mtc/audio_card_glue.c:241-258 | the pin is moved only to change it and ends low, and it is up at every act for which the switch raises it, if and only if the command does not cut off a popping tuner during a call |
| `AudioSwitch.SessionsAreQuiet` | src/drivers/misc/mtc/audio_card_glue.c:858-1173 | the same over whole sessions |
| `AudioSwitch.EnterPowers` | src/drivers/misc/mtc/audio_card_glue.c:858-1173 | entering a source names it, and powers it unless it was already named |
| `AudioSwitch.DvdStaysOff` | src/drivers/misc/mtc/audio_card_glue.c:961-980 | a DVD stopped during a call stays named, so entering it again does not start it |
| `PowerCount.Unit.Work` | src/drivers/misc/mtc/audio_card_glue.c:1429-1474 | phone, AJX, activation and the car's power messages have the effect of their views on the count |
| `PowerCount.Unit.CarRelease` | docs/.naming_backup2/mtc-car.c:707-722 | message 30 at zero does nothing; the last holder's release switches the audio off and ends the call |
| `PowerCount.HoldAdds` | docs/.naming_backup2/mtc-car.c:697-705 | below 255 holders message 29 adds exactly one and leaves the audio on |
| `PowerCount.NextKeepsBalance` | src/drivers/misc/mtc/audio_card_glue.c:1429-1474 | a command keeps count = base + call + AJX if and only if it is not a phone mode whose low byte alone is zero |
| `PowerCount.RunsKeepBalance` | src/drivers/misc/mtc/audio_card_glue.c:1429-1474 | the same at every boundary of every run without power messages |
| `PowerCount.RunsKeepBound` | docs/.naming_backup2/mtc-car.c:771-850 | with power messages 42, 43 and 45 interleaved anywhere the count stays between 0 and one more than call plus AJX, so it never wraps |
| `PowerCount.RunsFollowCommands` | src/drivers/misc/mtc/audio_card_glue.c:1429-1568 | over every run without power messages the call state is that of the last phone command and AJX that of the last AJX command, and the count is the base plus one for each that holds |
| `PowerCount.AwakeWhileHeld` | docs/.naming_backup2/mtc-car.c:697-722 | without holders of another kind and without the activation command, the audio is on exactly while somebody holds the power |
| `PowerCount.AfterPowerMessage` | docs/.naming_backup2/mtc-car.c:771-850 | after message 42 with nothing else held the count is one more than call plus AJX, after 43 and 45 just those |
| `PowerCount.VanishingLeaks` | src/drivers/misc/mtc/audio_card_glue.c:1429-1474 | the failing family: the audio code forgets the call but the power stays held |
| `Trees.OrderIsImmaterial` | scripts/completeness_scan.py:134-141 | patches made from one tree, one per path, all apply in every order and give the same tree |
| `Trees.ApplyAllPatches` | scripts/completeness_scan.py:134-141 | a touched path ends with the content of the last patch that names it, every other path as it was |
| `Trees.AppliesExactly` | scripts/completeness_scan.py:134-141 | a list of patches applies if and only if each meets the content it was made from |
| `Trees.OwnPatchesApply` | scripts/completeness_scan.py:134-141 | patches made from the tree they are applied to, one per path, cannot fail |
| `GenPatches.Classify` | scripts/gen_patches.py:168-192 | told from the trees: the vendor list holds the reported text files of T9 outside the manifest that equal the SDK's, the local list those that differ from both SDK and base, the skip list the reported SDK files missing in T9, the overlay list those in the manifest |
| `GenPatches.ListsByTrees` | scripts/gen_patches.py:180-190 | the same for each path |
| `GenPatches.SelectInOrder` | scripts/gen_patches.py:175-190 | each list keeps the order of the reported paths |
| `GenPatches.NoOverlap` | scripts/gen_patches.py:224-228 | the generator's overlap test can never fail: the three lists are disjoint and outside the manifest |
| `GenPatches.SelectDistinct` | scripts/gen_patches.py:168-192 | no list repeats a path |
| `GenPatches.PatchIsMade` | scripts/gen_patches.py:200-213 | a selected path gets a patch, never an empty one, if and only if its base file is not binary and it is not a new file without content |
| `GenPatches.WhyNoPatch` | scripts/gen_patches.py:204-213 | a binary file and an empty difference are reported as such, the binary file first |
| `GenPatches.EmptyFileStops` | scripts/gen_patches.py:200-213 | a failing input: a new empty file is selected, and its patch is refused as empty |
| `GenPatches.Generate` | scripts/gen_patches.py:261-262 | the generator succeeds exactly then for all paths, and its files carry the generated patches, the SDK's copy serving for T9's |
| `GenPatches.Emit` | scripts/gen_patches.py:245-259 | one list: it succeeds exactly when every patch can be made, with the stated names and content |
| `GenPatches.Write` | scripts/gen_patches.py:248-255 | a chosen name is never in use, so the fallback that adds a counter is never needed |
| `GenPatches.NameTellsNumber` | scripts/gen_patches.py:248-248 | the number can be read back from the file name, whatever the path |
| `GenPatches.NumberShape` | scripts/gen_patches.py:249-249 | the number has at least four digits and no more leading zeros than that |
| `GenPatches.NameParts` | scripts/gen_patches.py:249-249 | number, hyphen, slug, .patch |
| `GenPatches.SlugShape` | scripts/gen_patches.py:195-197 | the slug is 1 to 60 letters, digits and single hyphens: the path's letters and digits in order, cut at 60, or unnamed if there are none |
| `GenPatches.FileNamesDiffer` | scripts/gen_patches.py:245-259 | no two files of a list have the same name |
| `GenPatches.GeneratorSucceeds` | scripts/gen_patches.py:245-262 | the condition for success, over both lists |
| `GenPatches.PatchesRebuildT9` | scripts/gen_patches.py:168-262 | in every order the patches apply, and rebuild a T9 path that is neither binary nor in the manifest if and only if it was reported or never differed |
| `Completeness.DoScan` | scripts/completeness_scan.py:111-131 | the fast scan's loop |
| `Completeness.ApplyLoop` | scripts/completeness_scan.py:134-141 | applying stops at the first patch that fails |
| `Completeness.DoFull` | scripts/completeness_scan.py:144-160 | rebuild and compare: the missing and the differing files |
| `Completeness.CheckListsMean` | scripts/completeness_scan.py:150-155 | the files missing are those not in the rebuilt tree, the differing ones those there with other content |
| `Completeness.ScanIsFullCheck` | scripts/completeness_scan.py:111-160 | the scan's two kinds of gap are the missing and the differing files, list for list, if and only if every file in the overlay has T9's content there and every other file named by a patch has it in the last patch naming it |
| `Completeness.ScanOverlooks` | scripts/completeness_scan.py:111-131 | a covered file that is rebuilt wrong is on the check's lists and not on the scan's |
| `Completeness.CarriedIsTrustworthy` | scripts/completeness_scan.py:111-160 | that condition on overlay and patches holds if and only if every covered file is rebuilt as in T9 |
| `Completeness.AllCarried` | scripts/completeness_scan.py:111-160 | patches with T9's content and an overlay equal to T9 satisfy it |
| `Completeness.StaleOverlay` | scripts/completeness_scan.py:111-131 | a failing input: of a stale overlay file the scan reports nothing and the full check a difference |
| `Completeness.GapIsUnpatched` | scripts/completeness_scan.py:111-131 | with generated patches a gap is a path outside the manifest that differs from the base and was not reported as text |
| `Completeness.GeneratedSetIsComplete` | scripts/completeness_scan.py:111-160 | generator and scan together: with the generated patches in any order and the manifest files as overlay the scan equals the full check, and finds nothing if and only if every differing file outside the manifest was reported and is not binary |
| `VsFrame.FrameSumsTo255` | docs/.naming_backup/mtc-vs.c:392-416 | the bytes after the header of every frame, of whatever length, sum to 0xFF modulo 256 |
| `VsFrame.FrameLayout` | docs/.naming_backup/mtc-vs.c:398-416 | header 0x2E, command, low byte of the count, payload, check, in count + 4 bytes |
| `VsFrame.ReaderRecovers` | docs/.naming_backup/mtc-vs.c:392-416 | a reader of header, command, count, payload and check recovers the list of commands from the stream if and only if every count fits its byte |
| `VsFrame.LongPayloadIsLost` | docs/.naming_backup/mtc-vs.c:392-416 | a failing input: a payload of 256 bytes is not read back |
| `VsFrame.ReadIsSent` | docs/.naming_backup/mtc-vs.c:392-416 | a byte stream the reader accepts is the stream sent for the commands it reports, and no other |
| `VsFrame.OneByteIsNoticed` | docs/.naming_backup/mtc-vs.c:392-416 | a frame in which one byte other than the count is replaced is accepted if and only if nothing changed |
| `VsFrame.Port.Build` | docs/.naming_backup/mtc-vs.c:394-416 | the buffer filled with a running 8-bit checksum is the frame |
| `VsFrame.RunningIsSum` | docs/.naming_backup/mtc-vs.c:397-415 | the running checksum is the sum modulo 256 |
| `VsFrame.Port.Feed` | docs/.naming_backup/mtc-vs.c:417-454 | the insertion loop with its flag hands over after every sixteenth byte and at the end of a whole frame, and stops where the port closes |
| `VsFrame.Port.Send` | docs/.naming_backup/mtc-vs.c:368-458 | a send does nothing unless the port is ready and open |
| `VsFrame.FedInChunks` | docs/.naming_backup/mtc-vs.c:421-449 | inserting in chunks loses and reorders nothing |
| `VsFrame.WholeFrameArrives` | docs/.naming_backup/mtc-vs.c:417-454 | a completed send leaves no byte unpushed, in size / 16 pushes rounded up |
| `VsFrame.NothingLeftBehind` | docs/.naming_backup/mtc-vs.c:417-454 | a send leaves bytes behind if and only if it is cut short inside a chunk, and then fewer than 16 |
| `VsFrame.SentIsRead` | docs/.naming_backup/mtc-vs.c:368-458 | end to end: the reader of what was delivered recovers the commands sent if and only if they fit |
| `VsFrame.Port.SendAll` | docs/.naming_backup/mtc-vs.c:368-458 | the same for the port object |
| `RingList.FreeAll` | src/drivers/misc/mtc/dvd.c:232-280 | on every well-formed circular list each entry is freed exactly once, in list order, no freed node is read, the loop ends and the head is linked to itself |
| `RingList.Drop` | src/drivers/misc/mtc/dvd.c:242-246 | unlinking and freeing the first entry leaves the others a ring, whatever their number |
| `RingList.EntriesAreUnique` | src/drivers/misc/mtc/dvd.c:232-280 | the links determine the entries, so what is freed does not depend on how the list is described |
| `RingList.Find` | src/drivers/misc/mtc/dvd.c:926-972 | the folder lookup finds the first entry with the number if there is one, and nothing otherwise |
| `RdsAf.AfAdd` | docs/.naming_backup2/mtc-radio.c:126-146 | one call in place, for any int code: the buffer holds the list with the code added by the rule, with its length byte, zeros after the codes, and nothing past index 25 touched |
| `RdsAf.AfAddAll` | docs/.naming_backup2/mtc-radio.c:126-146 | any run of int codes: the list is proper if every code is clean, and holds the first 25 distinct ones if all are bytes |
| `RdsAf.AddedAreFirst` | docs/.naming_backup2/mtc-radio.c:126-146 | over every run the list is duplicate-free, without zeros, and the first 25 of the distinct codes in order of arrival |
| `RdsAf.FirstsLists` | docs/.naming_backup2/mtc-radio.c:126-146 | that order lists every non-zero code once |
| `RdsAf.FirstsGrow` | docs/.naming_backup2/mtc-radio.c:126-146 | what arrived earlier comes first |
| `RdsAf.OrderIsUnique` | docs/.naming_backup2/mtc-radio.c:126-146 | no other listing has these two properties |
| `RdsAf.AddKeepsProper` | docs/.naming_backup2/mtc-radio.c:126-146 | for any int code, a proper list stays proper if and only if the code is zero, listed, or surplus, or its low byte is neither zero nor listed |
| `RdsAf.RunsKeepProper` | docs/.naming_backup2/mtc-radio.c:126-146 | over every run of int codes the list is proper after every call if and only if every code meets that guard for the list it meets |
| `RdsAf.WordRepeatsCode` | docs/.naming_backup2/mtc-radio.c:126-146 | a failing input: 5 and then the word 0x105 leave 5 twice |
| `Volume.TwoThirdsIsExact` | docs/.naming_backup/mtc-audio.c:90-91 | 0xAAAAAAAC in the high word is 2x/3, for natural x, if and only if x is below 2^30, 2^31 or 3 * 2^30, by the remainder of x by 3 |
| `Volume.ByMillionIsExact` | docs/.naming_backup/mtc-audio.c:107-108 | 0x431BDE83 with shift 50 and the sign correction is C division by 10^6 for every 32-bit int |
| `Volume.By28IsExact` | docs/.naming_backup/mtc-audio.c:631-677 | 0x92492493 with shift 4 and the sign correction is C division by 28 for every 32-bit int |
| `Volume.LevelInPieces` | docs/.naming_backup/mtc-audio.c:86-106 | the curve is three straight pieces |
| `Volume.SetVolumeIsShare` | docs/.naming_backup/mtc-audio.c:76-109 | for byte settings and maxima nothing overflows and the result is the level's share of the maximum rounded down |
| `Volume.VolumeIsMonotone` | docs/.naming_backup/mtc-audio.c:76-109 | the result never falls when the setting or the maximum rises |
| `Volume.VolumeWithinMaximum` | docs/.naming_backup/mtc-audio.c:76-109 | setting 99 gives the maximum, and settings up to 100 never exceed it if and only if the maximum is below 80 |
| `Volume.OldBalance` | docs/.naming_backup/mtc-audio.c:625-677 | each byte sent to an old MCU is half the setting rounded up |
| `Fps.WholeIsClose` | src/include/linux/rk_fb.h:398-419 | twice the rate's error in picoseconds, against 10^12, is at most total * period + total |
| `Fps.EachTimingCounts` | src/include/linux/rk_fb.h:407-408 | each of the eight timings adds its share of pixels to the frame total |
| `Fps.CalcIsClose` | src/include/linux/rk_fb.h:398-419 | the int returned is the exact rate, and keeps that bound, if and only if 10^12 + total / 2 < total * (2^31 * period - period / 2) |
| `Fps.CalcFalls` | src/include/linux/rk_fb.h:398-419 | no display with a longer period or a larger frame gets a higher or a negative rate if and only if the same inequality holds |
| `Fps.FitsIsBelow` | src/include/linux/rk_fb.h:398-419 | the inequality says that the rate before the cast is below 2^31 |
| `Fps.Nearest` | src/include/linux/rk_fb.h:411-417 | adding half the divisor before dividing rounds to the nearest, ties up, and only that number is nearest |
| `Fps.RateTooHigh` | src/include/linux/rk_fb.h:398-419 | an input whose rate does not fit: the result is negative |
| `Fps.NoScreenNoRate` | src/include/linux/rk_fb.h:402-406 | without a screen the result is 0 |

## Left out

- DvdLink.EverySchedule: no poll times out in the composition; contention after one side has given up is not modelled, only each side's own exits.
- McuLink.EverySchedule: the same for the MCU link; the command word before the bytes is taken as sent.
- McuLink.SenderExitsReleased: two waits of the byte loop have no timeout in the driver, so the sender need not return from it.
- AudioSwitch.CommandIsQuiet: which acts click is taken from the driver's own reasons for raising the pin; only the order of the acts is proved.
- PowerCount.RunsKeepBalance: the base is at most 253, since two more holders would wrap the one-byte count.
- Fps.CalcIsClose: the product of the two totals is taken as exact, without the wrap of a 32-bit product of absurdly large timings.
- Backview.Camera.CaptureWork: a handler's flags are one record updated at once where the driver sets bytes one by one; the order of a flag and a camera stop inside one handler is not observed.
- Messages and commands that only write registers: message 51, decoder setup, register tables, key and notification codes sent to the application.
- capture_check_work, which requeues itself and watches the picture; only its being queued is modelled.
- Changes of the call flag or the power count by other threads while a handler runs: each is read once for each message.
- Debouncing of MCU pins, which is one read here, and simultaneous requests from both ends of the DVD link.
- Places where the decompiled C lost a cast or shift, so that the text does not carry the value sent: `arm_send_cmd`, the 7-bit data loop outside 0xA000, the 8-bit accumulator of `arm_rev`, packed words of `media_index_work`, the newer `mtcGetSetVolume.c`.
- `ch_sel_mode` 4 of `Audio_EnterChannel`, whose DVD branches return without naming the channel, and audio command 0x15.
- Volume, fade, equalizer and routing values sent on a channel change; the table-driven part of `Audio_Balance`.
- The media lookup next to the folder lookup, whose decompiled loop starts at the second entry.
- Failure of memory allocation and of insertion into the terminal buffer, and the locks around them.
- Artifact filters, `diff`, `patch`, hashing, file modes and the file system: trees are maps, and a patch either applies exactly or fails.
- The it66121 list and the reverse comparison at the end of `do_full`, and the manifest warnings of `do_scan`.
- `car_ioctl`, probe and remove code, board files, I2C, GPIO and clock calls other than as state changes.
