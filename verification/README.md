# RILL: the terminal emulator and the path that rebuilds it

RILL keeps a shell's output in a small kernel process and lets disposable
clients attach to it. A client must be able to vanish and come back: it gets a
checkpoint of the emulator's screen, the bytes that came after it, and from
then on is expected to stand exactly where it would have stood had it never
left. This project models the code that claim rests on and proves the claim.

`dafny verify dfyconfig.toml` checks everything.

## How it is laid out

| file | what it holds |
|---|---|
| `Types.dfy`, `Arith.dfy`, `Digits.dfy`, `Utf8.dfy` | fixed-width integers, cells, colours; flat-index arithmetic; decimal; UTF-8 |
| `ParserSpec.dfy`, `ByteParser.dfy` | the 13-state byte parser as a function, and as an object over fixed arrays |
| `Grid.dfy`, `Flat.dfy`, `ScreenSpec.dfy`, `TermScreen.dfy` | edits on rows of cells; the flat buffer and its row view; the screen as functions, and as an object that copies within one flat array |
| `CsiFidelity.dfy` | control sequences written out and parsed back |
| `Damage.dfy`, `WidePairs.dfy`, `Scrolling.dfy`, `Restoring.dfy` | what every action and every run of actions keeps |
| `ControlLaws.dfy` | the same effect asked for in different ways; controls that undo one another |
| `Shifts.dfy`, `PrintLaws.dfy`, `CursorLaws.dfy`, `EditLaws.dfy`, `ModeLaws.dfy`, `SideLaws.dfy` | what every character and every control does, cell by cell and field by field, without the screen's own functions |
| `StringLaws.dfy` | where strings and sequences end, and what interrupts them |
| `Repaint.dfy`, `RowDrawing.dfy`, `RepaintProof.dfy` | the repaint printer; one row and one screen as the emulator draws them from what is printed |
| `CellInvariants.dfy`, `RepaintExact.dfy`, `Resync.dfy` | properties of single cells over every run; exactly which screens a repaint and a cold resync rebuild |
| `Bytes.dfy`, `Fnv.dfy`, `Checkpoint.dfy` | the checkpoint codec and its hash |
| `EngineSpec.dfy`, `HostRuns.dfy`, `VtEngine.dfy` | parser and screen together; every run of host calls; the engine object |
| `Ring.dfy`, `SessionSpec.dfy`, `Session.dfy`, `SessionLaws.dfy`, `RecoveryChain.dfy` | byte history, the session state machine and object, its events field by field, recovery end to end |
| `Attach.dfy`, `FanoutSpec.dfy`, `Fanout.dfy`, `FanoutLaws.dfy` | frames on the wire; the worker's drain and fan-out, and one turn client by client |
| `WireLaws.dfy` | frames and checkpoints byte by byte |
| `Forest.dfy`, `Kernel.dfy` | the container tree on values, and as an object over maps |
| `Viewport.dfy`, `Ranges.dfy` | the host's scrollback window; the generated width tables |

Code that changes state step by step is a class whose methods are proved equal
to a function of the state before (`TermScreen.Screen` against `ScreenSpec`,
`ByteParser.Parser` against `ParserSpec`, `SessionObject.Session` against
`SessionSpec`, and so on). The theorems about runs are lemmas about those
functions, so they hold of the objects.

The screen's state is split in two values. `Core` is what a checkpoint records;
`Fx` (damage, replies, rows that scrolled off) is what it does not. The next
`Core` is a function of the `Core` alone, which is what makes a checkpoint
enough to go on from.

The width tables, the colour resolution and the default palette are one
parameter, `Tables`. The terminal of the child is an `Env`: what a read of a
given size returns, which writes it accepts, whether it can be resized, whether
the input lease has run out. Killing a child is a predicate on leaves.

## Where the code and its promises part

Each of these is proved, with the exact condition where there is one and an
input that shows it happens.

* `reparent_node` refuses a node as its own parent but not a descendant. Every
  such move makes the moved node its own ancestor, and from exactly such a node
  the walk of `collect_subtree` never ends (`Forest.MovedWalkEndsIff`,
  `WalkEndsIff`, `ReparentKeepsIff`; a cycle that is accepted, and its walk:
  `CycleIsAccepted`, `WalkNeverEnds`).
* `insert_cells` and `resize_cells` do not look at wide pairs and can leave half
  of one; regional-indicator expansion can when something scrolled a pair under
  its open cluster (`WidePairs.InsertSound`, `ResizeSound`, `ExpandSound`,
  `IchSplitsOne`, `ResizeSplitsOne`, `RiSplitsOne`).
* From column 65528 on, the next tab stop does not fit 16 bits
  (`HostRuns.TabStop`, `TabWraps`).
* An attach that names session 0 and needs the long form arrives as an attach to
  the default leaf (`Attach.RoundTrip`, `SessionZeroArrives`).
* The decoder's fail-closed test on a declared but unsent frame can never be
  true: the length check before it already bounds the buffer
  (`Attach.Decoder.Push`).
* The repaint, and with it the cold resync, restores a screen exactly when every
  character on it stands alone: a flag does not, because the pair it fills is
  printed as its first indicator (`RepaintExact.RepaintUndone`,
  `Resync.ResyncIsExact`, `FlagNotRebuilt`).
* Beyond the screen, a cold resync leaves the client in the state the history
  leads to exactly when there is nothing else to carry over
  (`Resync.ResyncIsLived`). Modes, region and saved cursor are forgotten
  (`RestForgotten`); the client's pen is neither the host's nor a new engine's
  but the last inked cell's (`PenLeaks`), and behind an alternate screen there
  is a saved cursor even if the program saved none (`CursorLeaks`).

## Model

| member | source | states |
|---|---|---|
| Utf8.DecodeEncode | crates/vt-engine/src/parser.rs:508-510 | Decoding undoes UTF-8 encoding for every scalar beyond ASCII, and every encoding announces its own length |
| Utf8.DecodeIsRfc3629 | crates/vt-engine/src/parser.rs:508-510 | The decoder accepts exactly the 2, 3 and 4 byte sequences of the grammar in section 4 of RFC 3629: no overlong form, no surrogate, nothing above U+10FFFF |
| Utf8.EncodeDecode | crates/vt-engine/src/parser.rs:508-510 | Whatever is accepted is the one shortest encoding of the scalar it decodes to |
| ParserSpec.GroundStep | crates/vt-engine/src/parser.rs:137-179 | In Ground a byte is put back only when it interrupts a pending character, and it is that very byte, now with nothing pending |
| ParserSpec.StringStep | crates/vt-engine/src/parser.rs:389-462 | Inside a string a byte is put back only after an ESC that does not end it, and it is then read in Escape; where strings end is StringLaws.BelEnds, StringTerminatorEnds and CancelEnds |
| ParserSpec.Step | crates/vt-engine/src/parser.rs:115-135 | Every buffer stays within its fixed bound on every byte, and a put-back byte is re-read only where it cannot be put back again, the measure that ends the put-back loop |
| ParserSpec.Consume | crates/vt-engine/src/parser.rs:78-91 | One input byte, put-back included, always ends with an empty put-back slot |
| ParserSpec.Run | crates/vt-engine/src/parser.rs:78-91 | Any input from any settled state ends in a settled state: 32 parameters, 2 intermediates, 1024 OSC bytes and 4 UTF-8 bytes are never exceeded |
| ParserSpec.RunAppend | crates/vt-engine/src/parser.rs:78-91 | Cutting a stream anywhere changes neither the parser state reached nor the trace of actions |
| ParserSpec.RunIsStepThenResume | crates/vt-engine/src/parser.rs:78-91 | The put-back loop of feed, one step at a time, is the byte-wise run |
| CsiFidelity.RunDigits | crates/vt-engine/src/parser.rs:473-479 | A string of digits of any length accumulates to min(value, 65535) |
| CsiFidelity.Fidelity | crates/vt-engine/src/parser.rs:271-387 | From Ground, any control sequence of parameter strings, separators, optional private marker and final byte (section 5.4 of ECMA-48) is exactly one action: parameters in order, each min(value, 65535), the first 32 kept, ignored exactly when there were more, none at all only for the empty sequence; the parser is as new afterwards |
| CsiFidelity.NumbersSurvive | crates/vt-engine/src/parser.rs:473-489 | Printing 1 to 32 arbitrary u16 values in decimal and parsing them is the identity |
| CsiFidelity.TooManyAreIgnored | crates/vt-engine/src/screen.rs:1298-1315 | More than 32 parameters leave screen, damage and replies exactly as they were |
| Digits.ValueDecimal | crates/vt-engine/src/screen.rs:1218-1237 | The decimal digits of a number denote it |
| Digits.WriteU16 | crates/vt-engine/src/screen.rs:1218-1237 | The five-byte digit buffer never overflows and yields exactly the decimal digits, most significant first |
| ByteParser.Parser.PushInter | crates/vt-engine/src/parser.rs:464-471 | Refines the spec in place: the third intermediate is dropped and marks the sequence ignored |
| ByteParser.Parser.PushDigit | crates/vt-engine/src/parser.rs:473-479 | The fixed accumulator saturates at 65535 without 32-bit overflow |
| ByteParser.Parser.FinishParam | crates/vt-engine/src/parser.rs:481-489 | The 33rd parameter is dropped and marks the sequence ignored; no index leaves the 32-slot array |
| ByteParser.Parser.PushOsc | crates/vt-engine/src/parser.rs:491-505 | OSC payload beyond 1024 bytes is dropped and marked |
| ByteParser.Parser.DispatchCsi | crates/vt-engine/src/parser.rs:378-387 | The screen gets exactly the collected sequence and the collector is cleared |
| ByteParser.Parser.CsiStep | crates/vt-engine/src/parser.rs:271-376 | Every byte inside a control sequence, final byte included, does in place to parser and screen what the two specs together say |
| ByteParser.Parser.SequenceStep | crates/vt-engine/src/parser.rs:206-376 | Every byte inside an escape or control sequence does to parser and screen what the two specs together say |
| ByteParser.Parser.StringStep | crates/vt-engine/src/parser.rs:389-462 | Every byte inside an OSC, DCS, SOS, PM or APC string likewise; how strings end is StringLaws |
| ByteParser.Parser.Utf8Step | crates/vt-engine/src/parser.rs:137-204 | A pending character is completed, continued or abandoned with U+FFFD, and the interrupting byte put back |
| ByteParser.Parser.GroundStep | crates/vt-engine/src/parser.rs:137-179 | Every byte in Ground likewise |
| ByteParser.Parser.Step | crates/vt-engine/src/parser.rs:115-135 | One step of the class is one step of the spec on parser and screen |
| ByteParser.Parser.Feed | crates/vt-engine/src/parser.rs:78-91 | The while loop over put-back slot and input terminates, and parser state and screen end where the byte-wise run of the spec and its actions end |
| TermScreen.Screen.Create | crates/vt-engine/src/screen.rs:106-148 | A zero dimension is refused; otherwise a new screen is blank, plain, with the region over the whole height and full damage |
| TermScreen.Screen.CopyWithin | crates/vt-engine/src/screen.rs:541-562 | Overlapping copy_within behaves as if the source range had been taken first |
| TermScreen.Screen.SetCell | crates/vt-engine/src/screen.rs:494-496 | Writing flat index row*cols+col changes exactly that cell of the row view |
| TermScreen.Screen.DirtyRows | crates/vt-engine/src/screen.rs:512-527 | Marking a block of rows extends the damage interval to cover it |
| TermScreen.Screen.ScrollUp | crates/vt-engine/src/screen.rs:541-562 | The in-place copy on the flat buffer equals removing the region's first row and adding a blank one at its bottom; the row is logged exactly on the primary screen with the region at the top |
| TermScreen.Screen.ScrollDown | crates/vt-engine/src/screen.rs:564-580 | The mirror image |
| TermScreen.Screen.Index | crates/vt-engine/src/screen.rs:533-539 | Moves down, or scrolls exactly at the bottom margin |
| TermScreen.Screen.ReverseIndex | crates/vt-engine/src/screen.rs:582-588 | Moves up, or scrolls down exactly at the top margin |
| TermScreen.Screen.EnterAlt | crates/vt-engine/src/screen.rs:615-637 | Saves the primary grid (and cursor) once, blanks the screen, homes the cursor; refines the spec the alternate-screen theorems are about |
| TermScreen.Screen.LeaveAlt | crates/vt-engine/src/screen.rs:639-658 | Gives back the saved grid, clamped cursor and pen when asked; refines the spec |
| TermScreen.Screen.SetScrollRegion | crates/vt-engine/src/screen.rs:660-678 | Keeps top < bottom within the screen or does nothing |
| TermScreen.Screen.PrivateMode | crates/vt-engine/src/screen.rs:680-712 | The loop over the parameters applies every mode left to right |
| TermScreen.Screen.WriteChar | crates/vt-engine/src/screen.rs:714-773 | Cluster continuation, deferred wrap, smashing and placement in place end in the state of the spec, damage included; where that is, cell by cell, is PrintLaws.PrintAlone and PrintJoins |
| TermScreen.Screen.WrapIfNeeded | crates/vt-engine/src/screen.rs:797-809 | Wraps as the spec does; that a wrapped character lands in the first column of the next line, whole, is PrintLaws.TypedText and WideGoesDown |
| TermScreen.Screen.SmashWideAt | crates/vt-engine/src/screen.rs:811-832 | Overwriting one half of a pair blanks the other half and nothing else |
| TermScreen.Screen.MaybeExpandRiPair | crates/vt-engine/src/screen.rs:834-863 | Refines the expansion whose one splitting case WidePairs.ExpandSound pins down |
| TermScreen.Screen.AppendToCluster | crates/vt-engine/src/screen.rs:865-886 | At most 32 scalars a cluster; the rest are counted, saturating |
| TermScreen.Screen.EraseSpan | crates/vt-engine/src/screen.rs:914-935 | For any bounds, clamped: the two flat loops (smash, then blank) equal erasing each row's part of the span, with the rows touched marked |
| TermScreen.Screen.EraseDisplay | crates/vt-engine/src/screen.rs:937-947 | ED 0, 1 and above erase to the end, to the cursor, everything |
| TermScreen.Screen.EraseLine | crates/vt-engine/src/screen.rs:949-958 | EL likewise on the cursor's row; which columns those are is EditLaws.ErasesClear |
| TermScreen.Screen.EraseChars | crates/vt-engine/src/screen.rs:960-964 | ECH stops at the right edge |
| TermScreen.Screen.InsertLines | crates/vt-engine/src/screen.rs:966-993 | For every count, clamped to the region, the overlapping row copies equal adding blanks at the cursor and dropping rows at the bottom margin; rows outside are untouched |
| TermScreen.Screen.DeleteLines | crates/vt-engine/src/screen.rs:995-1022 | The mirror image |
| TermScreen.Screen.InsertCells | crates/vt-engine/src/screen.rs:1024-1044 | The in-row overlapping copy equals adding blanks at the cursor and dropping cells at the right edge |
| TermScreen.Screen.DeleteCells | crates/vt-engine/src/screen.rs:1046-1068 | After smashing, the in-row copy equals removing cells and adding blanks at the right edge |
| TermScreen.Screen.ApplySgr | crates/vt-engine/src/screen.rs:428-492 | The index loop with its skips for 38 and 48 computes the pen of the recursive spec, for every parameter list |
| TermScreen.Screen.EnqueueReply | crates/vt-engine/src/screen.rs:370-387 | Replies stay within 1024 bytes; what does not fit, or is discarded, is counted |
| TermScreen.Screen.CsiMove | crates/vt-engine/src/screen.rs:1070-1149 | Every cursor move is the spec's, which CursorLaws.MovesLead tells in plain arithmetic |
| TermScreen.Screen.CsiDispatch | crates/vt-engine/src/screen.rs:1070-1149 | Every final byte acts as in the spec, damage and replies included; what each does is in CursorLaws, EditLaws, ModeLaws and SideLaws |
| TermScreen.Screen.Execute | crates/vt-engine/src/screen.rs:1263-1296 | Every C0 control acts as in the spec |
| TermScreen.Screen.Csi | crates/vt-engine/src/screen.rs:1298-1315 | Ignored sequences and unknown markers change nothing |
| TermScreen.Screen.Esc | crates/vt-engine/src/screen.rs:1317-1346 | Every escape sequence acts as in the spec |
| TermScreen.Screen.Resize | crates/vt-engine/src/screen.rs:165-213 | Reallocation with the nested copy loops equals cutting or padding every row of both grids, and refuses a zero dimension without change |
| TermScreen.Screen.Snapshot | crates/vt-engine/src/screen.rs:215-260 | Hands out the painted cells in row-major order with the damage so far, and clears the damage |
| TermScreen.Screen.TakeScrolledOff | crates/vt-engine/src/screen.rs:283-288 | Hands over the logged rows, painted, in order, and empties the log |
| TermScreen.Screen.LastInk | crates/vt-engine/src/screen.rs:316-366 | The left-to-right scan finds the last cell that is not a default blank |
| TermScreen.Screen.RepaintRow | crates/vt-engine/src/screen.rs:316-366 | The loop over a row prints the spec's bytes: rendition only where it changes, no tails |
| TermScreen.Screen.RepaintBytes | crates/vt-engine/src/screen.rs:316-366 | The whole printer emits exactly the bytes RepaintUndone is about |
| TermScreen.Screen.ExportCheckpoint | crates/vt-engine/src/screen.rs:1350-1396 | The loops over cells emit exactly the blob the round-trip theorem is about |
| TermScreen.Screen.ImportCheckpoint | crates/vt-engine/src/screen.rs:1398-1481 | A rejected blob changes nothing; an accepted one leaves exactly the recorded state, and a valid screen whenever that state is one |
| Checkpoint.TakeColorPut | crates/vt-engine/src/screen.rs:1572-1586 | take_color inverts put_color, whatever follows |
| Checkpoint.TakePalettePut | crates/vt-engine/src/screen.rs:1594-1601 | take_palette inverts put_palette, all sixteen colours, whatever follows |
| Checkpoint.TakeCellPut | crates/vt-engine/src/screen.rs:1603-1608 | take_cell inverts put_cell, whatever follows |
| Checkpoint.TakeCellsPut | crates/vt-engine/src/screen.rs:1350-1396 | The cell loop is inverted by the reading loop, for any number of cells |
| Checkpoint.TakeSavedGridPut | crates/vt-engine/src/screen.rs:1350-1396 | The optional saved grid survives, present or absent |
| Checkpoint.TakeCursorPut | crates/vt-engine/src/screen.rs:1610-1623 | A saved cursor with its pen survives |
| Checkpoint.TakeSavedPut | crates/vt-engine/src/screen.rs:1610-1710 | An optional saved cursor survives, whatever follows |
| Checkpoint.TakeClusterPut | crates/vt-engine/src/screen.rs:1712-1740 | An optional open cluster survives, whatever follows |
| Checkpoint.FlagsRead | crates/vt-engine/src/screen.rs:1483-1537 | All twelve mode bits are packed injectively and read back |
| Checkpoint.TakeRecordPut | crates/vt-engine/src/screen.rs:1398-1481 | The whole body survives, whatever follows |
| Checkpoint.ImportExport | crates/vt-engine/src/screen.rs:1350-1481 | For every well-formed screen and offset, importing the export returns the offset and restores dimensions, both grids, both saved cursors, cluster, pen, palette, region and all modes |
| Checkpoint.ImportedShape | crates/vt-engine/src/screen.rs:1398-1481 | Of any accepted blob the screen is in shape if and only if the recorded region is ordered and inside, the cluster inside, and the alternate flag set exactly with a saved grid; nothing else is left to trust |
| Checkpoint.CorruptionRejected | crates/vt-engine/src/screen.rs:1398-1558 | Changing any one byte of any blob that imports makes it fail to import |
| Checkpoint.ExportCorruptionRejected | crates/vt-engine/src/screen.rs:1398-1558 | In particular of every exported checkpoint |
| Checkpoint.Write | crates/vt-engine/src/screen.rs:1350-1396 | The imperative writer, hash patched in last, emits the sealed blob of the spec |
| Checkpoint.Read | crates/vt-engine/src/screen.rs:1398-1481 | The imperative reader accepts, rejects and decodes exactly as the spec, error by error |
| Fnv.XorInjective | crates/vt-engine/src/screen.rs:1544-1558 | Exclusive or with a fixed word is injective |
| Fnv.MixInjective | crates/vt-engine/src/screen.rs:1544-1558 | Each FNV-1a step modulo 2^64 is injective in the state and in the byte |
| Fnv.DigestMasks | crates/vt-engine/src/screen.rs:1544-1558 | The digest does not see the hash field itself |
| Fnv.DigestDiffers | crates/vt-engine/src/screen.rs:1544-1558 | Two blobs of one length that differ in exactly one byte outside the hash field have different digests |
| Fnv.Hash | crates/vt-engine/src/screen.rs:1544-1558 | The hashing loop computes that digest |
| EngineSpec.FeedAppend | crates/vt-engine/src/lib.rs:133-141 | Two feeds are one feed of the concatenation, screen, damage, replies and log included |
| EngineSpec.RunSame | crates/vt-engine/src/parser.rs:97-105 | Two parsers in Ground with the same pending bytes act alike for ever: the leftover collectors never matter |
| EngineSpec.IdleIsNew | crates/vt-engine/src/parser.rs:54-56 | An idle parser is indistinguishable from Parser::new() on every input |
| EngineSpec.CoreRuns | crates/vt-engine/src/screen.rs:1350-1396 | Damage, replies and logged rows never influence the exported state |
| EngineSpec.ResumeIsContinue | crates/vt-engine/src/lib.rs:108-117 | Resuming any engine from an idle engine's state and feeding it the rest is continuing the first engine |
| EngineSpec.Recovery | crates/vt-engine/src/lib.rs:100-117 | For every stream h1++h2 with the parser idle after h1: export, import into any engine, feed h2; the state and the next export are byte for byte those of feeding h1++h2 straight through |
| EngineSpec.ExportDetermines | crates/vt-engine/src/screen.rs:1350-1396 | Equal exports come from equal states |
| VtEngineModule.VtEngine.Create | crates/vt-engine/src/lib.rs:31-36 | A zero dimension is refused; otherwise a new parser on a new screen |
| VtEngineModule.VtEngine.Feed | crates/vt-engine/src/lib.rs:133-141 | The objects end in the state Feed of the spec gives, the one all run theorems quantify over |
| VtEngineModule.VtEngine.Reset | crates/vt-engine/src/lib.rs:69-75 | A new parser and screen of the same size |
| VtEngineModule.VtEngine.RepaintBytes | crates/vt-engine/src/lib.rs:78-80 | Exactly the bytes RepaintUndone is about |
| VtEngineModule.VtEngine.ResyncFromHistory | crates/vt-engine/src/lib.rs:84-97 | Replays from nothing with replies discarded and returns exactly the bytes ResyncIsExact is about |
| VtEngineModule.VtEngine.ExportCheckpoint | crates/vt-engine/src/lib.rs:100-105 | Refused exactly while a sequence or character is incomplete |
| VtEngineModule.VtEngine.ImportCheckpoint | crates/vt-engine/src/lib.rs:108-117 | Rejection changes neither parser nor screen; any accepted blob leaves a new parser, exactly the recorded screen and the side effects of an import |
| VtEngineModule.VtEngine.Resize | crates/vt-engine/src/lib.rs:143-146 | Accepted exactly for non-zero dimensions |
| VtEngineModule.VtEngine.Snapshot | crates/vt-engine/src/lib.rs:148-150 | The pod is the painted display; only the damage is consumed |
| VtEngineModule.VtEngine.TakeReplies | crates/vt-engine/src/lib.rs:49-51 | Drains what the program is owed |
| VtEngineModule.VtEngine.TakeScrolledOff | crates/vt-engine/src/lib.rs:55-57 | Hands over the logged rows, painted under the palette, in order, and empties the log |
| HostRuns.DoSame | crates/vt-engine/src/lib.rs:108-117 | No host call tells apart two engines that bytes do not |
| HostRuns.RecoveryOverCalls | crates/vt-engine/src/lib.rs:100-117 | Recovery for runs of host calls: whatever calls came before the checkpoint and whatever come after it, any engine that imports it ends ready to export exactly when the first one is, with the same blob |
| HostRuns.RecoveryIsUnseen | crates/vt-engine/src/lib.rs:108-117 | Let an engine be idle and drained when its checkpoint is taken: any engine that imports it hands out, at every later host call and whatever the calls, the same snapshots (damage and dropped count aside), the same replies and the same scrolled-off rows |
| HostRuns.StepOutward | crates/vt-engine/src/screen.rs:370-527 | Damage and the count of dropped replies never reach what the host sees |
| VtEngineModule.VtEngine.SetPalette | crates/vt-engine/src/lib.rs:44-46 | Repaints everything |
| DamageProof.StepReports | crates/vt-engine/src/screen.rs:512-773 | Every single action covers by its damage every row whose contents it changes, and forgets no damage |
| DamageProof.RunReports | crates/vt-engine/src/screen.rs:215-260 | So does every run of actions |
| DamageProof.TracksRepaints | crates/vt-engine/src/screen.rs:215-260 | Where damage covers every difference, copying the damaged rows gives the whole grid |
| HostRuns.PodIsPainted | crates/vt-engine/src/screen.rs:215-260 | Cut into rows, the one list of cells a snapshot hands out is the painted grid; its damage fields are the damage, and cursor, visibility, default colours and both loss counters are the screen's |
| HostRuns.RendererIsExact | crates/vt-engine/src/screen.rs:215-260 | From a new engine, over any host calls with snapshots taken anywhere among them: a renderer that started with anything and copies only the damaged rows out of each snapshot shows the whole grid after the next one |
| HostRuns.StepReplies | crates/vt-engine/src/screen.rs:370-416 | No action makes the replies exceed 1024 bytes |
| HostRuns.EveryRunIsSafe | crates/vt-engine/src/screen.rs:165-213 | Every run of host calls keeps the cell count = cols*rows, cursor and cluster inside, the region ordered and inside, in_alt exactly with a same-sized saved grid, replies and every parser buffer bounded |
| HostRuns.NewIsSafe | crates/vt-engine/src/screen.rs:106-148 | In particular from a new engine of any size |
| HostRuns.TabWraps | crates/vt-engine/src/screen.rs:1263-1296 | Such a column is reached: on a wide enough screen CUP to column 65529 or beyond, then HT, leads back to the first column |
| HostRuns.TabStop | crates/vt-engine/src/screen.rs:1263-1296 | HT reaches the next multiple of 8, clamped, if and only if the cursor is left of column 65528; from there on the 16-bit stop wraps to column 0 |
| WidePairs.SmashSpares | crates/vt-engine/src/screen.rs:811-832 | Smashing a range of a paired row blanks, outside the range, exactly the halves whose partners lie in it |
| WidePairs.EraseBlanks | crates/vt-engine/src/screen.rs:914-935 | Erasing a range of a paired row blanks the range and the partners, and nothing else |
| WidePairs.SpanBlanks | crates/vt-engine/src/screen.rs:914-935 | The same by flat index, for spans over many rows |
| WidePairs.EraseSound | crates/vt-engine/src/screen.rs:914-935 | Every erase keeps every pair |
| WidePairs.DeleteSound | crates/vt-engine/src/screen.rs:1046-1068 | DCH keeps every pair, for every column and count |
| WidePairs.PutSound | crates/vt-engine/src/screen.rs:714-773 | Printing a fresh cluster keeps every pair |
| WidePairs.ExpandSound | crates/vt-engine/src/screen.rs:834-863 | Regional-indicator expansion keeps every pair if and only if the cluster's cell is not the tail of another pair |
| WidePairs.InsertSound | crates/vt-engine/src/screen.rs:1024-1044 | ICH keeps every pair if and only if it neither opens one at the cursor nor pushes one half off the right edge |
| WidePairs.ResizeSound | crates/vt-engine/src/screen.rs:165-213 | Resizing keeps every pair if and only if no kept row, of the screen or of the saved one, has a lead in the last kept column |
| WidePairs.StepSound | crates/vt-engine/src/screen.rs:714-1149 | Every action keeps every pair on both screens, with exactly those two exceptions |
| WidePairs.RunSound | crates/vt-engine/src/screen.rs:714-1149 | So does every run that never meets an exception |
| WidePairs.HarmlessSound | crates/vt-engine/src/screen.rs:714-1149 | In particular every run without regional indicators and ICH |
| WidePairs.IchSplitsOne | crates/vt-engine/src/screen.rs:1024-1044 | The first exception happens: print a wide character, move onto its tail, ICH |
| WidePairs.ResizeSplitsOne | crates/vt-engine/src/screen.rs:89-103 | Print a wide character, resize to one column: its lead is left alone, on every screen |
| WidePairs.RiSplitsOne | crates/vt-engine/src/screen.rs:834-863 | The second happens: open a cluster with one regional indicator, scroll a pair up under it, print the other |
| HostRuns.RunKeepsPairs | crates/vt-engine/src/screen.rs:165-832 | Over every run of host calls pairs survive unless a feed, resize or import meets one of the exact conditions |
| Repaint.ReadsChar | crates/vt-engine/src/parser.rs:137-204 | Every printable scalar, C1 range included, is parsed back from its UTF-8 bytes as one print |
| Repaint.ReadsRepaint | crates/vt-engine/src/screen.rs:316-366 | The printed screen parses to exactly the actions meant, for every grid of printable cells, all colours and attributes |
| Repaint.EmitColor | crates/vt-engine/src/screen.rs:1185-1216 | For every colour emits a form that selecting it back inverts (PenPrinted) |
| Repaint.EmitAttrs | crates/vt-engine/src/screen.rs:1173-1183 | Bold, underline and inverse, each its own sequence |
| RepaintProof.PenPrinted | crates/vt-engine/src/screen.rs:428-492 | From any pen the printed renditions select exactly the intended colours and attributes: emit_color and emit_attrs are undone by apply_sgr |
| RowDrawing.DrawnTold | crates/vt-engine/src/screen.rs:316-773 | After any number of printed cells a row is either drawn as it was or told apart for good: too few columns filled, or a tail where there was none |
| RowDrawing.RowRebuilt | crates/vt-engine/src/screen.rs:316-366 | A row comes out as it was if and only if, up to its last ink, no character joins the one printed before it and every pair holds a wide character |
| RepaintProof.InkWrites | crates/vt-engine/src/screen.rs:714-773 | Printing a character while a row is drawn, joining or starting a cluster, does to the whole screen what the sketch of the row says |
| RepaintProof.DrawScreen | crates/vt-engine/src/screen.rs:316-366 | What the printed actions make of any cleared screen, for every grid of pairs and narrow cells: the redrawn rows, the cursor and flags of the source, the target's own rest |
| RepaintExact.PaintedIsDrawable | crates/vt-engine/src/screen.rs:316-366 | A repaint of anything at all leaves only whole pairs and no wide character in a single cell |
| RepaintExact.RepaintUndone | crates/vt-engine/src/screen.rs:316-366 | Feeding repaint_bytes() to any cleared engine of the same size rebuilds every cell with colours and attributes, the cursor, its visibility and the alternate flag if and only if every character of the screen stands alone (pairs whole and wide, single cells narrow, none joining the one before it); and then the whole engine is known: the pen is left at the rendition of the last inked cell of the last row, a blank grid and a home cursor are saved behind an alternate screen, the rest is the target's own |
| Resync.RunPrints | crates/vt-engine/src/parser.rs:137-204 | Whatever it is fed, the parser prints nothing but scalars from U+0020 on, without U+007F |
| Resync.ReachedPrints | crates/vt-engine/src/screen.rs:714-773 | So every screen a program can reach is made of cells the repaint can print |
| Resync.ResyncIsExact | crates/vt-engine/src/lib.rs:84-97 | For every history: the cold resync shows the screen the history leads to if and only if every character of that screen stands alone; and then the whole client is known |
| Resync.ResyncIsLived | crates/vt-engine/src/lib.rs:84-97 | For every history: the cold resync leaves the client in the very state the history leads to if and only if, besides, that state has nothing the resync does not carry: modes, region, autowrap, saved cursor, pending wrap and open cluster as on a new engine, the pen at the last inked cell's rendition, and behind an alternate screen exactly what the resync saves there |
| Resync.PenLeaks | crates/vt-engine/src/lib.rs:84-97 | Bold, a letter on the last row, bold off: the screen is rebuilt and the host's pen is plain, but the client's is bold, and the very next letter differs |
| Resync.CursorLeaks | crates/vt-engine/src/lib.rs:84-97 | Onto the alternate screen by 1047h, which saves no cursor: the client has saved one |
| Resync.PlainIsExact | crates/vt-engine/src/lib.rs:84-97 | It is exact after every history whose joining characters are no regional indicators, whose others stand alone, and whose insertions split no pair, whatever controls it sends |
| Resync.FlagNotRebuilt | crates/vt-engine/src/lib.rs:84-97 | A flag, two regional indicators on a new screen of two columns or more, is not rebuilt |
| Resync.RestForgotten | crates/vt-engine/src/lib.rs:84-97 | After ESC 7, DECCKM, bold and a region of two rows the screen is rebuilt, but the client has neither the saved cursor nor the mode nor the rendition nor the region |
| Scrolling.ScrollUpIs | crates/vt-engine/src/screen.rs:1070-1149 | SU n, n single scrolls, equals removing the region's first min(n, height) rows at once |
| Scrolling.ScrollDownIs | crates/vt-engine/src/screen.rs:1070-1149 | SD n likewise at the bottom |
| Scrolling.ScrollKeeps | crates/vt-engine/src/screen.rs:541-562 | On the primary screen with the region at the top, the log followed by the region's rows only gains blanks at its end: no row is lost, duplicated or reordered |
| Scrolling.StepLog | crates/vt-engine/src/screen.rs:541-562 | An action only ever appends to the log, and only in that situation |
| Scrolling.RunLog | crates/vt-engine/src/screen.rs:283-288 | Over any run the log only grows at its end |
| Restoring.RunStays | crates/vt-engine/src/screen.rs:680-712 | Nothing a program does on the alternate screen, short of leaving it, touches what waits behind it |
| Restoring.LeavingUndoesEntering | crates/vt-engine/src/screen.rs:615-658 | Whatever happens between 1049h and 1049l, leaving gives back the primary grid cell for cell with the cursor, pending wrap and pen |
| Restoring.RestoringUndoesSaving | crates/vt-engine/src/screen.rs:590-609 | Whatever happens between ESC 7 and ESC 8, unless it is saved again, restoring brings back cursor, pending wrap and pen |
| ControlLaws.ReportLeadsBack | crates/vt-engine/src/screen.rs:401-1149 | The answer to DSR 6 parses back as the two numbers of one control sequence, and those numbers, given to CUP or HVP on any screen of the same size, put the cursor back and change nothing but the pending wrap and the open cluster |
| ControlLaws.EraseBothEnds | crates/vt-engine/src/screen.rs:914-935 | Erasing up to a cell and from it, in either order, is erasing everything, whatever the smashing met |
| ControlLaws.ColorFormsAgree | crates/vt-engine/src/screen.rs:428-492 | The three ways to name one of the sixteen colours select the same pen |
| ControlLaws.OffUndoesOn | crates/vt-engine/src/screen.rs:428-492 | Turning bold, underline or inverse off after on is turning it off, no other bit touched |
| ControlLaws.SgrSplits | crates/vt-engine/src/screen.rs:428-492 | Renditions in one sequence act as in two, where the first holds no 38 or 48 |
| PrintLaws.PrintAlone | crates/vt-engine/src/screen.rs:714-897 | On any screen at all, a character that joins nothing goes over the cells at the cursor, or with no room there and autowrap on over the first of the next line (one row down, or at the bottom margin the region one row up); only halves cut off are blanked; the cursor comes after it, pending a wrap when the last column is full; where it does not fit even there nothing is printed |
| PrintLaws.WideGoesDown | crates/vt-engine/src/screen.rs:714-809 | A wide character with one column left leaves that column and goes whole to the first two of the next line |
| PrintLaws.LastColumnOverwritten | crates/vt-engine/src/screen.rs:714-809 | With autowrap off a narrow character in the last column replaces the one there and nothing moves; a wide one is not printed |
| PrintLaws.PrintJoins | crates/vt-engine/src/screen.rs:834-886 | A character that joins changes no cell and moves nothing but is counted, up to 32 and then as lost; only a regional indicator joining a narrow cluster on the cursor's row makes its cell a pair and pushes the cursor past it |
| PrintLaws.TypedText | crates/vt-engine/src/screen.rs:714-897 | A text of any length, narrow and not joining, typed from the first column with autowrap on: the whole screen afterwards, every cell of it, the region one row up for every line below the bottom margin, cursor, pending wrap and open cluster |
| PrintLaws.TextLands | crates/vt-engine/src/screen.rs:714-809 | So character i is in column i % cols of line i / cols while that line is on the screen, and the cursor is after the last one |
| CursorLaws.MovesLead | crates/vt-engine/src/screen.rs:907-1149 | CUU, CUD, CUF, CUB, CNL, CPL, CHA, VPA, CUP and HVP lead to row and column in clamped arithmetic, and change only pending wrap and cluster besides |
| CursorLaws.ControlsLead | crates/vt-engine/src/screen.rs:1263-1296 | BS, HT, LF, VT, FF and CR likewise; every other control character does nothing |
| CursorLaws.EscapesLead | crates/vt-engine/src/screen.rs:582-1346 | IND, NEL and RI move a line or scroll the region row by row; the keypad modes take no intermediates; every other escape sequence but DECSC and DECRC does nothing |
| CursorLaws.SavingLeads | crates/vt-engine/src/screen.rs:590-609 | DECSC takes cursor, pending wrap and pen; DECRC puts them back on the screen |
| CursorLaws.MarginsAreSet | crates/vt-engine/src/screen.rs:660-678 | DECSTBM takes margins that are in order and on the screen, with their defaults, and homes the cursor; any others change nothing |
| CursorLaws.FeedsLog | crates/vt-engine/src/screen.rs:533-562 | A line feed, a wrap included, hands the screen's first row to the log exactly when it pushes it off the primary screen's top |
| EditLaws.LinesMove | crates/vt-engine/src/screen.rs:966-1149 | IL, DL, SU and SD: which old row each row is afterwards, and which are blank |
| EditLaws.ErasesClear | crates/vt-engine/src/screen.rs:937-964 | ED, EL and ECH in every mode: exactly the cells from or up to the cursor, of the line or the screen, are blank, with the halves cut off beside them; every other cell is kept |
| EditLaws.CellsMove | crates/vt-engine/src/screen.rs:1024-1068 | ICH and DCH: which old cell each cell of the row is afterwards, and which are blank |
| EditLaws.RunKeepsHalves | crates/vt-engine/src/screen.rs:714-863 | No run of actions makes a cell at once a lead and a tail, which is all these laws ask of a screen |
| ModeLaws.RenditionSets | crates/vt-engine/src/screen.rs:428-492 | Each rendition on its own: the colour it sets, which of bold, underline and inverse it turns on or off, the other bits staying |
| ModeLaws.ColorsSet | crates/vt-engine/src/screen.rs:428-492 | 38 and 48 set an index or three channels, each at most 255, and nothing when cut short |
| ModeLaws.ColorThen | crates/vt-engine/src/screen.rs:428-492 | What follows a colour in the same sequence acts as it would alone |
| ModeLaws.ModeSets | crates/vt-engine/src/screen.rs:680-712 | Each private mode switches its own field and no other |
| ModeLaws.ModesInTurn | crates/vt-engine/src/screen.rs:680-712 | Modes given together are set one after another |
| ModeLaws.AlternateEntered | crates/vt-engine/src/screen.rs:615-637 | 1047h and 1049h put the screen behind a blank one, once, and the cursor home; only 1049 takes the cursor along |
| ModeLaws.AlternateLeft | crates/vt-engine/src/screen.rs:639-658 | 1047l and 1049l give back the screen behind, 1049 the cursor and pen taken; on the primary screen they do nothing |
| ModeLaws.OthersDoNothing | crates/vt-engine/src/screen.rs:1070-1315 | Ignored sequences, other markers and intermediates, other final bytes and OSC strings change nothing |
| ModeLaws.ResizedIs | crates/vt-engine/src/screen.rs:89-213 | Resizing keeps every cell that fits where it is, on both screens, pads with blanks, keeps every cursor on the screen and opens the margins |
| SideLaws.AnswersAre | crates/vt-engine/src/screen.rs:389-1149 | Which requests are answered, with which bytes, and when an answer is dropped and counted instead |
| SideLaws.OthersLogNothing | crates/vt-engine/src/screen.rs:541-562 | No action but line feeds and SU hands a row to the log |
| SideLaws.MarksAre | crates/vt-engine/src/screen.rs:512-947 | Exactly the rows each action marks for repainting: damage is neither missing nor wider than that |
| StringLaws.BelEnds | crates/vt-engine/src/parser.rs:389-404 | An OSC of any payload ended by BEL is one action with the payload cut to 1024 bytes, and leaves a new parser |
| StringLaws.StringTerminatorEnds | crates/vt-engine/src/parser.rs:389-462 | So is an OSC ended by ESC backslash; a DCS, SOS, PM or APC so ended does nothing |
| StringLaws.CancelEnds | crates/vt-engine/src/parser.rs:389-451 | CAN and SUB end any string, executed in an OSC or a DCS |
| StringLaws.EscStartsOver | crates/vt-engine/src/parser.rs:406-462 | ESC before any other byte abandons the string and reads on from that ESC |
| StringLaws.EscapeIsOne | crates/vt-engine/src/parser.rs:206-269 | ESC, intermediates and a final byte are one action carrying the first two intermediates |
| StringLaws.IntermediatesCarried | crates/vt-engine/src/parser.rs:308-357 | A control sequence with intermediates is one action carrying marker and intermediates, two in all; a third makes it one to be ignored |
| StringLaws.HighByteSpoils | crates/vt-engine/src/parser.rs:308-336 | A byte beyond ASCII among the parameters makes the sequence one to be ignored |
| StringLaws.MisplacedIsSwallowed | crates/vt-engine/src/parser.rs:308-376 | A marker among the parameters, or a parameter after an intermediate, swallows the sequence up to its final byte |
| StringLaws.ControlInside | crates/vt-engine/src/parser.rs:206-376 | A C0 control inside an escape or control sequence is executed at once, and the sequence goes on as if it had not been there |
| StringLaws.SequenceAborted | crates/vt-engine/src/parser.rs:206-376 | CAN and SUB inside one end it, executed; ESC starts over |
| StringLaws.CharacterCutShort | crates/vt-engine/src/parser.rs:107-179 | A byte that does not go on with a character cut short is read as with none begun, after U+FFFD |
| StringLaws.CharacterGoesOn | crates/vt-engine/src/parser.rs:137-204 | A continuation byte goes on with a character begun; the last one prints it once, as U+FFFD exactly when section 4 of RFC 3629 has no such sequence |
| StringLaws.StrayBytes | crates/vt-engine/src/parser.rs:206-336 | DEL after ESC or among parameters does nothing; bytes beyond ASCII end an escape sequence for nothing |
| StringLaws.GroundBytes | crates/vt-engine/src/parser.rs:137-179 | Single bytes in Ground: controls execute, DEL is dropped, ASCII prints itself, what cannot begin a character prints U+FFFD |
| SessionSpec.DataIsWritten | crates/rill-kernel/src/session.rs:479-599 | With a live child and the lease open, DATA is written at once, whole, and marked dispatched, or refused with an I/O error and not written; a dead child is an error, an expired lease drops it silently |
| SessionSpec.ResizeIsLast | crates/rill-kernel/src/session.rs:479-599 | All input queued before a resize is written, in order, before the size changes; if some is refused the size stays |
| SessionLaws.AttachIs | crates/rill-kernel/src/session.rs:422-590 | What an observer, a second writer, and a first writer of a live or a dead child each change |
| SessionLaws.ReadableReads | crates/rill-kernel/src/session.rs:635-674 | With credit, a readable child is read, kept, paid for and sent to whoever listens; without, nothing but the stall is counted |
| SessionLaws.DrainReads | crates/rill-kernel/src/session.rs:611-630 | The worker's read happens exactly for a live child and an open window, and hands over the whole answer |
| SessionLaws.ExitIsTold | crates/rill-kernel/src/session.rs:372-389 | The status is taken down the first time it is there and told once to whoever listens then |
| SessionLaws.DetachIs | crates/rill-kernel/src/session.rs:398-420 | What a leaving writer drops, what stays queued and in which order |
| SessionLaws.HistoryOnce | crates/rill-kernel/src/session.rs:356-367 | The history, the last bytes of all that was read, is handed out once for every writer |
| SessionLaws.RecoveryIs | crates/rill-kernel/src/session.rs:174-196 | A checkpoint of version 1 is kept and given back with exactly the bytes after it while the ring has them |
| SessionLaws.HostCallsAre | crates/rill-kernel/src/session.rs:330-354 | The outbound queue is first in, first out; observers are counted down, never below none |
| FanoutLaws.TurnReads | crates/rilld/src/lib.rs:327-453 | A turn reads exactly for a live child, no pacing writer out of credit and something there; then the whole answer to a read of the least credit, or one buffer |
| FanoutLaws.TurnServes | crates/rilld/src/lib.rs:989-1193 | Every client on the leaf whose credit covers the chunk, observers included, gets it and pays for it: a Delta at its offset under protocol 2, otherwise DATA; every other client is unchanged |
| FanoutLaws.DeltasReadStream | crates/rilld/src/lib.rs:989-1296 | The Deltas that a protocol-2 client whose credit covered every chunk has decoded amount to a prefix of the stream from where it joined, and to all of it once its outbox is empty |
| Forest.ReparentKeepsOrder | crates/rill-kernel/src/kernel.rs:179-246 | A move keeps the order of everybody's other children and puts the node last under its new parent |
| Forest.CloseMovesNothingElse | crates/rill-kernel/src/kernel.rs:305-317 | Every node that stays keeps kind, parent, leaves and, but for the root that goes, children |
| WireLaws.FrameIsLaidOut | crates/rill-attach/src/lib.rs:184-254 | Byte by byte: a frame is its tag, its payload's length and the payload's fields, numbers least significant byte first; none exceeds 4 MiB |
| WireLaws.FrontIs | crates/rill-attach/src/lib.rs:256-448 | What a decoder makes of any buffer's front: when it waits, and for every bad tag, length or payload which error it is and what is passed over |
| WireLaws.CheckpointIsLaidOut | crates/vt-engine/src/screen.rs:1350-1396 | A checkpoint begins with R1CK, version 1, its offset and its own hash; then columns, rows, cursor, margins, rendition, and the twelve flags bit by bit |
| WireLaws.ImportRefuses | crates/vt-engine/src/screen.rs:1398-1481 | Why a blob is refused, in order: length, magic, version, hash |
| Viewport.HistoryIsStill | crates/rill-host/src/scroll.rs:44-98 | While history is looked at, the whole window is repainted and no cursor shows; at the bottom it is the live screen itself |
| Ring.KeptAppend | crates/rill-kernel/src/ring.rs:40-62 | Keeping after each append is keeping of the whole stream |
| Ring.DeltasAreSuffix | crates/rill-kernel/src/ring.rs:65-74 | The deltas after k are the last bytes of the stream, as many as the offsets say; they are the exact suffix from k if and only if the stream is short enough not to saturate its offsets, and then exist exactly while k is retained |
| Ring.ByteRing.Append | crates/rill-kernel/src/ring.rs:40-62 | Both branches leave the last min(total, cap) bytes with base and end that never renumber a survivor |
| Ring.ByteRing.DeltasAfter | crates/rill-kernel/src/ring.rs:65-74 | Returns those deltas or refuses |
| SessionSpec.FlushEmpties | crates/rill-kernel/src/session.rs:592-599 | Pending input reaches the child in order, and nothing stays pending after one buffer |
| SessionSpec.StepBalances | crates/rill-kernel/src/session.rs:479-674 | Each event keeps the session's books: offset = bytes delivered, credit granted = remaining + read + unrepresentable, EXIT queued for a writer of a dead child, DATA = bytes read since attach; what the child was written is exactly the accepted DATA in order, its size the last one asked for, its end asked for exactly when an ephemeral session was left, and no queued frame but DATA is lost or overtaken |
| SessionSpec.RunBalances | crates/rill-kernel/src/session.rs:479-674 | So does every interleaving of attach, credit, read, drain, child exit, detach and host calls |
| SessionSpec.EveryRunBalances | crates/rill-kernel/src/session.rs:106-674 | In particular from a spawned session, whatever happens to it |
| SessionSpec.DrainFits | crates/rill-kernel/src/session.rs:611-630 | A drain never exceeds its window or the read buffer |
| SessionObject.Session.OnFrame | crates/rill-kernel/src/session.rs:479-590 | The object does at every frame what the state machine says, which SessionSpec.DataIsWritten, ResizeIsLast and SessionLaws.AttachIs tell field by field |
| SessionObject.Session.OnAttach | crates/rill-kernel/src/session.rs:479-590 | One writer: a second is refused; a writer of a dead child is told at once |
| SessionObject.Session.OnData | crates/rill-kernel/src/session.rs:479-590 | Dead children and expired leases take no input; all other DATA is written at once, as SessionSpec.DataIsWritten says |
| SessionObject.Session.OnResize | crates/rill-kernel/src/session.rs:479-590 | Queued input is written before the size changes |
| SessionObject.Session.FlushInput | crates/rill-kernel/src/session.rs:592-599 | The loop writes what is pending, oldest first, and stops at a refusal |
| SessionObject.Session.Detach | crates/rill-kernel/src/session.rs:398-420 | Only DATA is dropped: a pending EXIT survives; an ephemeral child is asked to end |
| SessionObject.Session.PollChild | crates/rill-kernel/src/session.rs:372-389 | The status is recorded once and queued exactly when someone listens |
| SessionObject.Session.OnPtyReadable | crates/rill-kernel/src/session.rs:635-674 | Reads at most the credit, never underflowing it, and ships what it read |
| SessionObject.Session.DrainPtyAtMost | crates/rill-kernel/src/session.rs:611-630 | Reads at most the window, zero meaning a stall |
| SessionObject.Session.TakeResyncHistory | crates/rill-kernel/src/session.rs:356-367 | Hands out the retained bytes once per attach |
| SessionObject.Session.Recovery | crates/rill-kernel/src/session.rs:185-196 | Checkpoint and deltas, or the reason there are none |
| SessionObject.Session.InstallCheckpoint | crates/rill-kernel/src/session.rs:174-178 | Only the one format version is taken |
| RecoveryChain.CheckpointPlusDeltas | crates/rill-kernel/src/session.rs:185-196 | End to end: recovery succeeds if and only if the ring still holds every byte after the checkpoint, and then blob plus deltas put any client where the emulator fed the whole session stands, next export included |
| Attach.RoundTrip | crates/rill-attach/src/lib.rs:184-355 | Every frame decodes to itself if and only if it is not a long-form attach to session 0, which arrives as an attach to the default leaf |
| Attach.SessionZeroArrives | crates/rill-attach/src/lib.rs:184-355 | An observer that names session 0 arrives, under every protocol and generation, as one that names none |
| Attach.Drain | crates/rill-attach/src/lib.rs:421-448 | What is left after whole frames were taken off is shorter than MAX_FRAME+5 bytes |
| Attach.DrainMore | crates/rill-attach/src/lib.rs:421-448 | Whole frames at the front are not changed by what follows them |
| Attach.AnyCut | crates/rill-attach/src/lib.rs:421-448 | For arbitrary bytes and any cutting, all pushes succeed exactly when the whole stream parses, and then yield exactly its frames and keep exactly its unfinished end |
| Attach.Reassembly | crates/rill-attach/src/lib.rs:184-448 | Any list of frames that encode, cut anywhere, comes out again; it is the list sent if and only if none is the ambiguous attach |
| Attach.Decoder.Push | crates/rill-attach/src/lib.rs:421-448 | The drain loop refines that spec; its fail-closed length test can never be true |
| FanoutSpec.WriterCredit | crates/rilld/src/lib.rs:1195-1204 | The least credit of the leaf's protocol-1 writers: none without one, a lower bound, and attained |
| FanoutSpec.ReadFitsWriters | crates/rilld/src/lib.rs:327-453 | A drained chunk always fits every protocol-1 writer's credit |
| FanoutSpec.ServedIsFair | crates/rilld/src/lib.rs:989-1193 | One fan-out keeps one client's book: the outbox grows by exactly the frame sent, nothing is missing from what a client got whose credit sufficed, in DATA or in Deltas, labels are true, credit conserved |
| FanoutSpec.RunIsFair | crates/rilld/src/lib.rs:327-453 | Over every run of joins, leaves, grants, deliveries, socket writes and drain turns: written bytes plus outbox are the frames sent, each client on the leaf whose credit covered every chunk, as a protocol-1 writer's always does, was sent exactly what was drained since it joined, in DATA or under protocol 2 in Deltas, granted = remaining + sent (+ unrepresentable), each Delta is the stream at its offset, and a client's Deltas ascend without overlap |
| FanoutSpec.EveryRunIsFair | crates/rilld/src/lib.rs:327-453 | In particular from a spawned session with nobody attached |
| FanoutSpec.ClientReads | crates/rilld/src/lib.rs:1278-1296 | Whatever a client's socket has taken, cut anywhere, its decoder makes of it the first of the frames sent, and all of them once the outbox is empty |
| FanoutSpec.WriterReadsStream | crates/rilld/src/lib.rs:989-1296 | The DATA a protocol-1 writer's decoder has put together is a prefix of the stream from where the writer joined, and all of it once its outbox is empty |
| FanoutObject.Worker.Protocol1WriterCredit | crates/rilld/src/lib.rs:1195-1204 | The accumulating loop computes that least credit |
| FanoutObject.Worker.FanoutPtyBytes | crates/rilld/src/lib.rs:989-1022 | The loop over the clients serves each exactly as the spec, which FanoutLaws.TurnServes tells client by client |
| FanoutObject.Worker.DrainTurn | crates/rilld/src/lib.rs:327-453 | One turn: read within the writers' credit, fan out what came, tell whether to go on |
| FanoutObject.Worker.DrainLeaf | crates/rilld/src/lib.rs:327-453 | The loop performs turns up to and including the first that reads nothing |
| Forest.UnderParent | crates/rill-kernel/src/kernel.rs:272-289 | Being in a subtree is being its root or having one's parent in it |
| Forest.CreateKeeps | crates/rill-kernel/src/kernel.rs:134-161 | Creating a node keeps links mutual, children unique and the tree acyclic |
| Forest.AttachKeeps | crates/rill-kernel/src/kernel.rs:165-172 | So does attaching a leaf |
| Forest.ReparentMovesNothingElse | crates/rill-kernel/src/kernel.rs:179-246 | A move keeps every id, kind and leaf attachment and every other parent |
| Forest.ReparentKeepsIff | crates/rill-kernel/src/kernel.rs:179-246 | A move keeps the forest if and only if the new parent is not in the subtree that moves |
| Forest.CycleIsAccepted | crates/rill-kernel/src/kernel.rs:179-246 | The code accepts such a move: a workspace put under its own group closes a cycle |
| Forest.WalkEndsIff | crates/rill-kernel/src/kernel.rs:272-289 | For all linked trees, cycles elsewhere included: the worklist of collect_subtree empties if and only if its root is not its own ancestor, and then within as many turns as there are nodes |
| Forest.MoveClosesIff | crates/rill-kernel/src/kernel.rs:179-246 | After any move, whatever cycles there were, the moved node is its own ancestor if and only if it went into its own subtree |
| Forest.MovedWalkEndsIff | crates/rill-kernel/src/kernel.rs:179-289 | After any move reparent_node accepts, the walk from the moved node ends if and only if the node did not go into its own subtree |
| Forest.WalkNeverEnds | crates/rill-kernel/src/kernel.rs:272-289 | The worklist of that two-node cycle, turn by turn: 1, 2, 1, 2 for ever |
| Forest.CloseKeeps | crates/rill-kernel/src/kernel.rs:305-317 | Removing a whole subtree keeps the rest a forest and removes exactly its nodes |
| Forest.WalkGoesOn | crates/rill-kernel/src/kernel.rs:272-289 | Opening a node of the worklist meets only nodes not seen before, as long as the root is not its own ancestor |
| Forest.WalkEnds | crates/rill-kernel/src/kernel.rs:272-289 | An emptied worklist has seen exactly the subtree |
| Forest.LeavesInHolds | crates/rill-kernel/src/kernel.rs:291-303 | A leaf is collected if and only if some node of the list holds it |
| Forest.RunKeeps | crates/rill-kernel/src/kernel.rs:134-270 | Every run of operations whose moves are out of the moved subtree is a forest throughout |
| Forest.RunStaysLinked | crates/rill-kernel/src/kernel.rs:134-270 | Over every run of what the kernel accepts, moves that close cycles included, parent and child links agree and no child is listed twice |
| KernelObject.Kernel.AllocateNodeId | crates/rill-kernel/src/kernel.rs:123-131 | The search, wrapping past 2^64-1, ends with the first id in turn that no node uses, and goes on from the next one |
| KernelObject.SearchEndsIff | crates/rill-kernel/src/kernel.rs:123-131 | Wherever it starts, that search ends if and only if some id but 0 is free |
| KernelObject.Kernel.CreateNode | crates/rill-kernel/src/kernel.rs:134-161 | Fails exactly for an unknown parent, otherwise adds exactly one node under it |
| KernelObject.Kernel.AttachLeaf | crates/rill-kernel/src/kernel.rs:165-172 | Only known leaves, only known nodes |
| KernelObject.Kernel.ReparentNode | crates/rill-kernel/src/kernel.rs:179-246 | Refused exactly for unknown nodes and for the node itself; otherwise exactly the move, with the forest kept if and only if it goes outside |
| KernelObject.Kernel.CollectSubtree | crates/rill-kernel/src/kernel.rs:272-289 | Whenever the root is not its own ancestor, the worklist ends and returns every descendant exactly once |
| KernelObject.Kernel.CollectLeaves | crates/rill-kernel/src/kernel.rs:291-303 | Every leaf of the list of nodes, in order |
| KernelObject.Kernel.Terminate | crates/rill-kernel/src/kernel.rs:491-506 | Idempotent; marks before it kills; records a Terminate event exactly for a leaf that was alive and could be killed |
| KernelObject.Kernel.RemoveSubtree | crates/rill-kernel/src/kernel.rs:305-317 | Unlinks the root and removes exactly the listed nodes |
| KernelObject.Kernel.CloseNode | crates/rill-kernel/src/kernel.rs:251-270 | For a node that is not its own ancestor, whatever cycles there are elsewhere: succeeds if and only if the node exists and each leaf of its subtree is dead or can be killed; then exactly that subtree is gone, exactly its leaves are terminated and exactly one end is recorded for each that was alive; on failure no node moved and no other leaf was touched; a forest stays one |
| Viewport.History.Ingest | crates/rill-host/src/scroll.rs:8-15 | History is always the last 10,000 drained rows in order |
| Viewport.ComposeViewport | crates/rill-host/src/scroll.rs:44-98 | The stacking and painting loops compute the composed grid of the spec |
| Viewport.ShowsWindow | crates/rill-host/src/scroll.rs:44-98 | At offset k the viewport is the rows-high window over history followed by live ending min(k, history length) rows above the tail, each row cut or padded to the width |
| Ranges.RangesOf | scripts/gen-east-asian-width.py:62-80 | For every predicate the scan yields its table: ascending, apart, covering exactly where it holds |
| Ranges.Maximal | scripts/gen-east-asian-width.py:62-80 | No range of a table could be longer |
| Ranges.TableUnique | scripts/gen-east-asian-width.py:62-80 | A predicate has only one table |
| Ranges.Search | crates/vt-engine/src/east_asian_width.rs:487-499 | The binary search over ascending, separate ranges finds a code point if and only if some range holds it |
| Ranges.ContainsDecides | crates/vt-engine/src/east_asian_width.rs:487-499 | Searching the generated table decides the predicate on every code point |

## Left out

- VtEngineModule.VtEngine.ImportCheckpoint: the object is promised to be valid only when the recorded screen is in shape, because the source takes the scroll region, the alternate flag and the cluster's position unchecked (`Checkpoint.ImportedShape`)
- RepaintExact.RepaintUndone: states nothing for a grid with a control character or a non-scalar in a cell, which no program can print (`Resync.ReachedPrints`) and only a forged checkpoint can hold; and it takes the space to be narrow, as it is in the generated table
- HostRuns.TabStop: models the 16-bit wrap of a release build, where a build with overflow checks stops
- HostRuns.EveryRunIsSafe: the log of scrolled-off rows is not among the bounds, because the source lets it grow until the host drains it
- KernelObject.Kernel.CollectSubtree: requires that the root is not its own ancestor, because otherwise, and only then, the source's loop does not end (`Forest.WalkEndsIff`)
- KernelObject.Kernel.CloseNode: requires it for the same reason
- KernelObject.Kernel.AllocateNodeId: requires that some id is free, because otherwise, and only then, the source's loop does not end (`KernelObject.SearchEndsIff`); so does KernelObject.Kernel.CreateNode where it gets that far
- KernelObject.Kernel.Terminate: of the event log only the Terminate events are modelled, not those of spawning, attaching and exiting
- FanoutSpec.RunIsFair: the labels of Deltas are stated for streams shorter than 2^64 bytes, where offsets saturate
- FanoutObject.Worker.DrainLeaf: takes what the terminal will answer as a finite list, where the source's loop goes on for as long as the terminal has more
- TermScreen.Screen.LeaveAlt: the saved grid is a sequence that is copied into a new buffer, where the source moves the vector back
- Cursor, pen, damage and input modes are records inside the screen object, where the source has a field for each part
- PrintLaws.TypedText: for a text that starts at or above the bottom margin; of one typed below the margins each single character is told, by `PrintLaws.PrintAlone`
- EditLaws.ErasesClear: speaks of screens on which no cell is at once a lead and a tail, as `EditLaws.RunKeepsHalves` says of every one a program can reach; only a forged checkpoint can hold such a cell
- FanoutLaws.TurnServes: the offset in a Delta is stated for streams shorter than 2^64 bytes, where offsets saturate
- Typing under a lease nonce, which compares it and goes on as for DATA
- The session's journal, working directory, viewport of observers and window-size query
- FanoutSpec.WriterReadsStream: which DATA frames of the wire came from the fan-out is the book's knowledge; the client itself cannot tell the cold resync's DATA from the child's
- The second attach frame of one connection, and with it writer uniqueness in the daemon; exclusivity is the session's
- The daemon's resync ordering, its own snapshot format for protocol 2 and that format's hash
- The wall clock behind the input lease: a lease is due or not
- Pseudo-terminals, processes, sockets, polling, locks, permissions and the accept loops
- The C interface, the macOS host and its drawing
- Test instrumentation that a build feature switches on
- The literal Unicode ranges, the palette values and the colour cube
- Looks, themes, configuration, redaction, automation, attention, tasks, transcripts and the content timeline
