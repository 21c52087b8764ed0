# Verified model of UnifiedFloppyTool's workers and scripts

Most of UnifiedFloppyTool is user interface and hardware access. Under it sit a few pieces of real
logic, and these are modelled and proved here:

- **Checks.** The table-driven CRC-16 of the DMK analyser and the branchless CRC-32 of the forensic and
  disk-analyser tabs are proved to be polynomial division (`PolyDivision` holds the theory once, over
  bits, for any generator), and from that to detect every short burst of damage.
- **DMK images.** What the analyser reports on any bytes is described from the bytes alone, and is proved to
  be the only report. The analyser and the exporter undo a layout of any disk with any interleave, FM or MFM;
  damage to one or two adjacent bytes of a sector's data is always seen, and spoils that sector's place in
  the export and no other.
- **Flux capture and flux write.** Two long-running protocols against a drive that may answer anything at
  any step, with a cancel flag that another thread may raise at any moment. A run is described by the
  answers it met (`Run`); its log is then a function of them (`LogOf`), the imperative job is proved to
  write exactly that log, and the safety theorems are about every `LogOf`. Resources are followed by a
  monitor automaton that is not derived from the job. Once the flag is up nothing new is begun.
- **Decode job.** Load, verify and convert under concurrent cancellation: when `finished` is sent, the
  counters are complete and honest and the destination is a faithful copy.
- **Hardware tab.** One invariant over every session of connects, clicks, timers and mode changes ties
  handlers, button states, the connection flag and the motor flag to the one live provider; a second,
  over the log of commands to provider objects, says that no spinning provider is destroyed.
- **Flux histogram.** Binning, greedy peak choice with its exact characterisation, weighted centers and
  the encoding guess, with real arithmetic.
- **Build scripts.** The brace-counting scan of the project file against its block structure, and against
  what a default qmake run makes of that structure (`ProBuild`); the baseline file's round trip and gate.
- **Hidden data scan, recent files.** A skipping loop that counts exactly, and a truncated list that
  equals what an unbounded history would give.

The cancel flag (`Flags.CancelFlag`) is raised by another thread at some time from `downUntil` on and by
`upFrom` at the latest, and never falls back; both times are arbitrary, and the time is the number of log
entries (for an export, of tracks written). With equal times the moment is fixed; otherwise each look at the
flag between them may find it up or not. Answers of drives, writers and files are arbitrary values. Lemmas
named `...InNumbers` or `...Iff` say what the tables and functions of the specification amount to, without
naming them. `hide` statements only shorten proofs.

## Where the code and its documentation differ

The model follows the code in each case.

- `src/fluxwritejob.h` says an unreadable track stops the write; the code counts a skip and goes on.
  `FluxWriteSafety.UnreadableTrackIsSkipped` is such a run; `FluxWriteSafety.NothingSkippedIff` says when a
  finished run passed over nothing.
- The scanners are meant to mirror the default qmake build. They differ from it in three ways: they skip the
  `else` branch of an opt-in block, which the build takes when the flag is off; they keep both branches of
  every other scope, of which the build takes at most one (a flag missing from the scripts' list, such as
  `cart7_support`, included); and they look for braces in lines whose comments qmake drops.
  `ProBuild.ElseSourceIsLost`, `ProBuild.UnlistedFlagIsKept` and `ProBuild.CommentHidesBrace` are a file for
  each; `ProBuild.ScanIsQmakeIff` says exactly on which structures, under which truth of the other conditions,
  scan and build agree on every line, and `ProBuild.CommentedScanIsQmakeIff` carries that to text whose comments
  hide or show no brace.
- A raw export is reported as complete whatever the writes to its file answered. `Dmk.PerformExport` fixes the
  file it leaves for every such answer; `Dmk.FileIsExportIff` says that it is the export exactly when every write
  stored all its bytes.
- A raw export copies each good sector at its own length. `DmkAlignment.ExportInPlaceIff` says exactly when the
  sectors stand where a raw image has them; `DmkAlignment.LengthIsNotEnough` is an image on which they do not
  although the export has the right length.
- A rebuilt baseline is meant to accept the tree it was built from. It does not when a source file missing from
  the project file has a line break in its path: `Baseline.BreakSpoilsRebuild` is such a tree,
  `Baseline.OnlyBreaksMatter` the exact condition.
- The geometry tables of the validator do not always fit the file: the 819200-byte row claims more than the
  file holds, and sizes the tables do not know are taken for a 720K disk. `DecodeJob.AtariImageLosesForty` is
  an accepted image with forty sectors too many; `DecodeJob.BadSectorsIff` says, from suffix and size, exactly
  when a faultless verification has no bad sector.
- A decode job is meant to end with one terminal signal. It sends none exactly when the check after the copy
  sees a cancel; the model logs that as `CancelSeen`. `DecodeJob.SilentRun` is such a run.

## Model

| member | source | states |
|---|---|---|
| `PolyDivision.TimesPlusAdds` | src/uft_dmk_analyzer_panel.cpp:71-112 | quotient times generator plus rest is, coefficient by coefficient, the product with the rest added to its low end |
| `PolyDivision.DivisionExists` | src/uft_dmk_analyzer_panel.cpp:71-112 | long division over GF(2): every dividend is quotient times generator plus the computed remainder |
| `PolyDivision.DivisionUnique` | src/uft_dmk_analyzer_panel.cpp:71-112 | no other remainder fits, so the register's value is determined by the algebra |
| `PolyDivision.RunIsRemainder` | src/uft_dmk_analyzer_panel.cpp:71-112 | a bit-serial register with any preset holds the remainder of the preset-corrected message times x^n |
| `PolyDivision.RunLinear` | src/uft_dmk_analyzer_panel.cpp:71-112 | the register is linear over XOR of presets and messages |
| `PolyDivision.ResidueZero` | src/uft_dmk_analyzer_panel.cpp:359-371 | appending a check clears the register if and only if it is the message's check |
| `PolyDivision.BurstDetected` | src/uft_dmk_analyzer_panel.cpp:359-371 | two messages that differ only inside a window no wider than the register never share a check |
| `ByteMessages.SerialBurst` | src/uft_dmk_analyzer_panel.cpp:108-111 | damage inside a window of bytes is damage inside the window of their bits, in either bit order |
| `Crc16Table.TableRight` | src/uft_dmk_analyzer_panel.cpp:73-106 | each of the 256 table entries is eight clocks of the generator x^16+x^12+x^5+1 |
| `Crc16.TableStepIsRun` | src/uft_dmk_analyzer_panel.cpp:108-111 | one table step feeds exactly the eight bits of one byte to the bit-serial register |
| `Crc16.Crc16` | src/uft_dmk_analyzer_panel.cpp:71-112 | the table loop computes the division of section 2 of ITU-T Recommendation V.41 for every message and start value |
| `Crc16.CrcIsDivision` | src/uft_dmk_analyzer_panel.cpp:71-112 | the same for the function the other theorems use |
| `Crc16.CrcLinear` | src/uft_dmk_analyzer_panel.cpp:71-112 | the table form is affine over XOR of messages and start values |
| `Crc16.ResidueIsZero` | src/uft_dmk_analyzer_panel.cpp:359-371 | appending two bytes high first drives the register to zero if and only if they are the check |
| `Crc16.BurstChangesCrc` | src/uft_dmk_analyzer_panel.cpp:359-371 | a burst of at most sixteen bits anywhere always changes the check |
| `Crc16.TwoByteDamageChangesCrc` | src/uft_dmk_analyzer_panel.cpp:359-371 | damage inside two adjacent bytes always changes the check, for any length and start value |
| `Crc16.PresetIsSync` | src/uft_dmk_analyzer_panel.cpp:57 | the MFM start value stands for A1 A1 A1 after FFFF |
| `Word32.AdvanceBranches` | src/forensictab.cpp:428 | the mask form without a branch is the conditional form |
| `Word32.AdvanceIsClock` | src/forensictab.cpp:428 | one bit loop turn is one clock of the reflected generator 0xEDB88320 |
| `Crc32.EightClocks` | src/forensictab.cpp:427-429 | the inner loop is eight clocks |
| `Crc32.CalculateHashes` | src/forensictab.cpp:424-431 | the first copy computes the checksum of section 8 of RFC 1952 |
| `Crc32.LoadImageFromFile` | src/diskanalyzerwindow.cpp:82-88 | the second copy computes the same function |
| `Crc32.LoadImageFromDisk` | src/diskanalyzerwindow.cpp:132-140 | the third copy too |
| `Crc32.Crc32IsDivision` | src/forensictab.cpp:424-431 | that function is reflected polynomial division with complemented preset and result |
| `Crc32.BurstChangesCrc32` | src/forensictab.cpp:424-431 | a burst of at most 32 bits always changes the checksum |
| `Crc32.FourByteDamageChangesCrc32` | src/forensictab.cpp:424-431 | two images that differ only within four consecutive bytes have different checksums |
| `Dmk.ReadIdamTable` | src/uft_dmk_analyzer_panel.cpp:278-292 | the pointer loop yields the usable pointers up to the first zero entry |
| `Dmk.FindDataMark` | src/uft_dmk_analyzer_panel.cpp:332-349 | the mark search finds the first data mark in its window, or none |
| `Dmk.FirstMark` | src/uft_dmk_analyzer_panel.cpp:339-349 | nothing before the mark found is a mark; without a result the window holds none |
| `Dmk.ComputeDataCrc` | src/uft_dmk_analyzer_panel.cpp:362-370 | the check covers mark and data from the density's start value |
| `Dmk.ReadSectorAt` | src/uft_dmk_analyzer_panel.cpp:298-386 | one pointer's sector, with every early way out |
| `Dmk.AnalyseTrack` | src/uft_dmk_analyzer_panel.cpp:267-390 | an undisturbed track loop yields the track's reading and adds its sectors to the statistics |
| `Dmk.PerformAnalysis` | src/uft_dmk_analyzer_panel.cpp:203-397 | the nested loops with their running offset yield the analysis, or a stopped result exactly when the stop request was there at the last look; a request that is there from the start always stops it |
| `DmkReport.EveryFieldIsReported` | src/uft_dmk_analyzer_panel.cpp:298-386 | a pointer yields a sector exactly when it leads to an ID field, with or without a data mark behind it, and the report is the one described: the four ID bytes, density, size, mark, and data with both checks, or no data, no check and not good |
| `DmkReport.ReportUnique` | src/uft_dmk_analyzer_panel.cpp:298-386 | no other report fits the description |
| `DmkReport.PointersAre` | src/uft_dmk_analyzer_panel.cpp:278-292 | the pointers are the entries before the first zero one that point behind the table and into the track, in table order |
| `DmkReport.TrackIsReported` | src/uft_dmk_analyzer_panel.cpp:267-390 | a track has one sector for each pointer to an ID field, in order, each with its report, and has errors exactly when one of them is not good |
| `DmkReport.ImageIsReported` | src/uft_dmk_analyzer_panel.cpp:219-397 | why an image is refused, in order of the tests; otherwise one track for each side of each cylinder, read from its own bytes |
| `DmkReport.HeaderIs` | src/uft_dmk_analyzer_panel.cpp:229-239 | the header's fields from its bytes |
| `Dmk.TallyCounts` | src/uft_dmk_analyzer_panel.cpp:374-385 | the statistics are the counts of all, bad, deleted, FM and MFM sectors of all tracks |
| `DmkReport.TallyInNumbers` | src/uft_dmk_analyzer_panel.cpp:374-385 | the statistics of an analysis by what its sectors say |
| `Dmk.Find` | src/uft_dmk_analyzer_panel.cpp:444-451 | the first sector with the number, or proof that none has it |
| `Dmk.PerformExport` | src/uft_dmk_analyzer_panel.cpp:399-463 | every ending is justified by the analysis, the output file or the stop flag; a complete export leaves exactly what its writes stored of the sectors in order, and no track of it was begun after a certain stop; a cancelled one leaves no file or, where that cannot be removed, the tracks written so far; an earlier failure leaves the file as it was |
| `DmkReport.ExportedUnder` | src/uft_dmk_analyzer_panel.cpp:443-458 | under a number comes the data of the first sector that carries it, if good; fill bytes when it is bad or no sector carries it |
| `Dmk.PiecesJoin` | src/uft_dmk_analyzer_panel.cpp:432-459 | the writes of an export, joined, are the export |
| `Dmk.FileIsExportIff` | src/uft_dmk_analyzer_panel.cpp:453-463 | the file left by a complete export is the export if and only if every write stored all it was given |
| `DmkRoundTrip.ReadPlaced` | src/uft_dmk_analyzer_panel.cpp:298-386 | wherever a well-formed sector stands in a track, the analyser reports exactly it, check good |
| `DmkRoundTrip.TrackReadsBack` | src/uft_dmk_analyzer_panel.cpp:275-390 | a laid-out track reads back sector by sector without errors, for any order, gaps and densities |
| `DmkRoundTrip.AnalysisFindsAll` | src/uft_dmk_analyzer_panel.cpp:203-397 | the analysis of a laid-out disk of any geometry finds every sector, none bad |
| `DmkRoundTrip.SectorFound` | src/uft_dmk_analyzer_panel.cpp:443-458 | sector number s + 1 yields logical sector s under any interleave |
| `DmkRoundTrip.ExportInvertsLayout` | src/uft_dmk_analyzer_panel.cpp:399-463 | exporting the DMK image of a disk gives back its raw contents in cylinder, head, sector order |
| `DmkRoundTrip.FileInvertsLayout` | src/uft_dmk_analyzer_panel.cpp:399-463 | the file so written is the raw contents if and only if each of its writes stored a whole sector |
| `DmkIntegrity.GoodIsZeroResidue` | src/uft_dmk_analyzer_panel.cpp:359-371 | a sector is reported good if and only if sync, mark, data and stored check leave residue zero from FFFF |
| `DmkIntegrity.DamageIsSeen` | src/uft_dmk_analyzer_panel.cpp:359-371 | damage inside two adjacent data bytes of a good sector changes nothing in its report but the data, the computed check and the good flag, which falls |
| `DmkDamage.DamagedTrackReads` | src/uft_dmk_analyzer_panel.cpp:275-390 | such damage in one sector of a laid-out track leaves the report of every other sector as it was |
| `DmkDamage.InterleaveInjective` | src/uft_dmk_analyzer_panel.cpp:443-451 | an order that names every sector names none twice, so the damaged sector has no second copy to be found |
| `DmkDamage.DamageStaysInItsSector` | src/uft_dmk_analyzer_panel.cpp:399-463 | such damage anywhere in a laid-out disk changes the export in that one logical sector, which becomes fill bytes; all others come out whole and in place |
| `DmkAlignment.OutStands` | src/uft_dmk_analyzer_panel.cpp:440-459 | each sector's bytes stand in the export behind all sectors before it |
| `DmkAlignment.InPlaceIff` | src/uft_dmk_analyzer_panel.cpp:453-458 | on any tracks every sector stands at its raw position if and only if no copied sector is longer or shorter than the given size |
| `DmkAlignment.ExportInPlaceIff` | src/uft_dmk_analyzer_panel.cpp:399-463 | the export of an image has every sector at its raw position if and only if all good sectors it finds name the size of the disk's first |
| `DmkAlignment.LengthIsNotEnough` | src/uft_dmk_analyzer_panel.cpp:453-458 | an image whose export has the right length although its sectors do not stand in place |
| `DmkAlignment.RawBeforeIs` | src/uft_dmk_analyzer_panel.cpp:420-459 | the raw position of sector s + 1 of track k is (k * n + s) * size |
| `FluxSlicing.CutStep` | src/fluxcapturejob.cpp:187-192 | searching on from the last cut finds the least position whose flux time reaches the latest index time so far |
| `FluxSlicing.NoWrap` | src/fluxcapturejob.cpp:193-194 | the unsigned duration of a stored revolution never wraps and is positive, sorted index times or not |
| `FluxSlicing.SlicesConserve` | src/fluxcapturejob.cpp:179-209 | the stored slices, in order, are a prefix of the flux; slots are 0, 1, 2, ... up to the limit; short of the limit all flux before the last cut is stored |
| `FluxSlicing.SliceFacts` | src/fluxcapturejob.cpp:184-209 | each stored slice runs between two neighbouring cuts and carries the difference of their index times |
| `FluxSlicing.RevolutionAccurate` | src/fluxcapturejob.cpp:187-208 | with sorted index times and enough flux the boundary is the least position reaching the index time, and the stored flux differs from the recorded duration by less than the longest transition |
| `FluxCapture.FluxCaptureJob.SetRevolutions` | src/fluxcapturejob.cpp:47-52 | the count is clamped to 1..5 |
| `FluxCapture.FluxCaptureJob.Walk` | src/fluxcapturejob.cpp:188-192 | the 64-bit running sum finds the boundary and equals the exact time, without wrap-around |
| `FluxCapture.FluxCaptureJob.AddRevolutions` | src/fluxcapturejob.cpp:179-209 | the slicing loop hands the writer exactly the slices, in order, and counts each refusal |
| `FluxCapture.FluxCaptureJob.CaptureSide` | src/fluxcapturejob.cpp:157-246 | every outcome of a read leads to its own events and errors |
| `FluxCapture.FluxCaptureJob.CaptureSides` | src/fluxcapturejob.cpp:154-251 | the side loop stops exactly on an observed cancel or a lost device |
| `FluxCapture.FluxCaptureJob.CaptureCylinder` | src/fluxcapturejob.cpp:135-251 | a failed seek skips the cylinder, counts one error and its steps |
| `FluxCapture.FluxCaptureJob.CaptureAll` | src/fluxcapturejob.cpp:132-252 | the cylinder loop logs a well-formed body |
| `FluxCapture.FluxCaptureJob.RunJob` | src/fluxcapturejob.cpp:64-281 | every execution is one of the described runs and logs exactly its events; no seek or read follows once the flag is up for certain, a cancel is seen only when it may be up, and the reason of an aborted run is the flag when that is up, else the device |
| `FluxCaptureSafety.RunIsSafe` | src/fluxcapturejob.cpp:64-281 | every run is accepted by the resource monitor and ends with nothing held |
| `FluxCaptureSafety.StateCounts` | src/fluxcapturejob.cpp:64-281 | an accepted log's signals, acquisitions and releases are what the monitor state says |
| `FluxCaptureSafety.RunIsBalanced` | src/fluxcapturejob.cpp:64-281 | exactly one terminal signal; the writer is freed as often as created, the motor stopped as often as started |
| `FluxCaptureSafety.SaveMeansUndisturbed` | src/fluxcapturejob.cpp:254-272 | a run that saves saw no cancel and no lost device |
| `FluxCaptureSafety.RunProgress` | src/fluxcapturejob.cpp:122-281 | progress values stay in 0..100 and never fall |
| `FluxCaptureSafety.CompletedStepsAll` | src/fluxcapturejob.cpp:122-252 | a completed run made cylinders times sides steps |
| `FluxCaptureSafety.ZeroErrorsMeansAllRead` | src/fluxcapturejob.cpp:132-280 | zero errors if and only if every side was read with index marks and every revolution accepted |
| `FluxCaptureSafety.FinishedReportsErrors` | src/fluxcapturejob.cpp:265-280 | `finished` is in the log exactly when a completed run's save succeeded, and it carries that run's errors |
| `FluxCaptureSafety.FinishedCleanIff` | src/fluxcapturejob.cpp:132-280 | `finished` with zero errors is in the log exactly when the file was saved and everything was read and stored |
| `FluxCaptureSafety.CancelBeforeCapture` | src/fluxcapturejob.cpp:132-263 | a flag that is up before the first cylinder: nothing is sought for, read or stored, and the run ends with the user's cancel |
| `FluxCaptureSafety.EndIsNamed` | src/fluxcapturejob.cpp:64-281 | which terminal signal ends a run, by the events met: missing writer, refused motor, failed save, cancel or lost device, or none of them |
| `FluxCaptureSafety.FinishedCountsFaults` | src/fluxcapturejob.cpp:132-280 | the errors reported are the number of failed seeks, unusable reads and refused revolutions in the log |
| `FluxCaptureSafety.ProgressIsShare` | src/fluxcapturejob.cpp:247-250 | every progress value until the motor stops is the whole percentage of the sides dealt with before it |
| `FluxCaptureSafety.SideStoresPrefix` | src/fluxcapturejob.cpp:163-210 | what the writer is given for a side is a prefix of the captured flux |
| `FluxCaptureSafety.OfLog` | src/fluxcapturejob.cpp:132-252 | the reads and writer calls of one side in the whole log are those of its record, or none |
| `FluxCaptureSafety.SideInLog` | src/fluxcapturejob.cpp:132-252 | in every run each side is read at most once; its writer calls fill slots 0, 1, 2, ... once each, within the limit, with a prefix of the flux of that read, up to the last cut when slots are left; each call is one revolution with its true duration |
| `FluxWrite.NonZeroKeepsTime` | src/fluxwritejob.cpp:174-180 | dropping zeros keeps the total time |
| `FluxWrite.NonZeroHasNoZero` | src/fluxwritejob.cpp:174-180 | and leaves no zero |
| `FluxWrite.NonZeroAppend` | src/fluxwritejob.cpp:174-180 | what is kept of a stretch does not depend on its surroundings: the intervals stay in order |
| `FluxWrite.FluxOfIs` | src/fluxwritejob.cpp:154-180 | the flux of a track is that of its first revolution without zeros; any other answer, and a revolution of zeros, has none |
| `FluxWrite.FluxWriteJob.CollectFlux` | src/fluxwritejob.cpp:154-180 | the filter loop yields revolution 0 without its zeros, nothing for an unusable track |
| `FluxWrite.FluxWriteJob.WriteSlot` | src/fluxwritejob.cpp:145-247 | one slot's events for every answer |
| `FluxWrite.FluxWriteJob.Walk` | src/fluxwritejob.cpp:135-247 | the slot loop handles the populated slots in order until failure, cancel or the end, and begins none once the flag is up for certain |
| `FluxWrite.FluxWriteJob.RunJob` | src/fluxwritejob.cpp:48-269 | every execution is one of the described runs and logs exactly its events; no slot is begun once the flag is up for certain, a run is cancelled only when it may be up, and completes only if it was not up at the last look |
| `FluxWriteSafety.RunIsSafe` | src/fluxwritejob.cpp:48-269 | every run is accepted by the monitor: only the track in hand is written, once, after its cylinder was reached, on its own side, with its flux; nothing stays held |
| `FluxWriteSafety.StateCounts` | src/fluxwritejob.cpp:48-269 | an accepted log's counts are what the monitor state says |
| `FluxWriteSafety.RunIsBalanced` | src/fluxwritejob.cpp:48-269 | one terminal signal, each read track freed, the context destroyed and the motor stopped as often as created and started |
| `FluxWriteSafety.ReadsIncrease` | src/fluxwritejob.cpp:142-154 | slots are read in strictly increasing order |
| `FluxWriteSafety.WritesIncrease` | src/fluxwritejob.cpp:142-247 | write events go to strictly increasing slots, none twice |
| `FluxWriteSafety.WrittenArePrefix` | src/fluxwritejob.cpp:142-247 | for every write event in the log: its slot is populated and carries the flux just read from it, and every populated slot before it was read and written in full unless it held no flux |
| `FluxWriteSafety.NothingSkippedIff` | src/fluxwritejob.cpp:154-188 | a finished run reports no skip exactly when every populated slot answered with flux |
| `FluxWriteSafety.OnlySlotInHand` | src/fluxwritejob.cpp:142-247 | once the flag is up, a seek or a write concerns the slot read last, before the flag was up, on its own cylinder and side with its own flux; no later slot is begun |
| `FluxWriteSafety.CancelBeforeWalk` | src/fluxwritejob.cpp:142-257 | a flag that is up before the walk: nothing is read, sought for or written, and a run whose motor started ends with the user's cancel |
| `FluxWriteSafety.EndIsNamed` | src/fluxwritejob.cpp:48-269 | which terminal signal ends a run, by the events met: each failure and the cancel has its own, and without any of them the run finishes |
| `FluxWriteSafety.ProgressIsShare` | src/fluxwritejob.cpp:243-246 | every progress value until the motor stops is the whole percentage of the image's tracks written before it, at most 100 |
| `FluxWriteSafety.UnreadableTrackIsSkipped` | src/fluxwritejob.cpp:155-163 | a run that finishes although its one track cannot be read |
| `FluxWriteSafety.RunProgress` | src/fluxwritejob.cpp:133-259 | progress values stay in 0..100 and never fall |
| `FluxWriteSafety.FinishedCoversAll` | src/fluxwritejob.cpp:254-268 | `finished` exactly on a completed run; its written count is the number of writes the drive completed, written plus skipped are the populated slots, no hard error |
| `DiskImage.BestMatch` | src/disk_image_validator.cpp:54-71 | the table loop prefers the first exact size over the first variable one |
| `DiskImage.DetectGeometry` | src/disk_image_validator.cpp:194-270 | the geometry comes from the first known size, else from the first typical geometry that fits, else from nowhere |
| `DiskImage.Validate` | src/disk_image_validator.cpp:33-99 | suffix, size and magic fix the result: the best row, magic only without one, the size where the row leaves the geometry open |
| `DiskImage.BestMatchUnique` | src/disk_image_validator.cpp:54-71 | at most one row is the best match |
| `DiskImage.InvalidIff` | src/disk_image_validator.cpp:73-91 | an image is rejected exactly when no row fits and no magic is known |
| `DiskImage.FallbackIsExact` | src/disk_image_validator.cpp:249-269 | the fallback only picks geometries that account for the whole file |
| `DiskImage.KnownSizeClaims` | src/disk_image_validator.cpp:212-247 | which rows account for their file and which claim more than it holds |
| `ImageGeometry.GeometryInNumbers` | src/disk_image_validator.h:104-148 | which images are accepted and the one geometry each is verified with, in numbers for every suffix and size |
| `ImageGeometry.WholeImageRead` | src/disk_image_validator.h:104-148 | a sector image of fixed geometry is covered to its last byte, so all its sectors are found good by a faultless verification |
| `ImageGeometry.FluxInNumbers` | src/disk_image_validator.cpp:73-91 | which images are taken for flux |
| `ImageGeometry.FluxSuffixes` | src/decodejob.cpp:213-218 | which suffixes are verified as flux |
| `DecodeJob.InsideIs` | src/decodejob.cpp:245-283 | the sectors wholly inside a file number the smaller of the total and the quotient |
| `DecodeJob.NoBadSectorsIff` | src/decodejob.cpp:245-303 | no bad sectors if and only if the claimed bytes fit in the file |
| `DecodeJob.ClaimFitsIff` | src/disk_image_validator.cpp:194-270 | which sources of a geometry claim no more than the file holds; the fallback always |
| `DecodeJob.BadSectorsIff` | src/decodejob.cpp:166-175 | on a sector suffix a faultless verification has no bad sector exactly under a condition on suffix and size |
| `DecodeJob.AtariImageIsAccepted` | src/disk_image_validator.cpp:54-99 | an 819200-byte .ima image is accepted with 82 tracks, 2 heads and 10 sectors, whatever its first bytes |
| `DecodeJob.AtariImageLosesForty` | src/disk_image_validator.cpp:236 | such an image claims forty sectors too many |
| `DecodeJob.OffsetsFit` | src/decodejob.cpp:252-255 | no seek offset of any detected geometry leaves 32 bits |
| `DecodeJob.DecodeJob.VerifyHead` | src/decodejob.cpp:250-276 | the sector loop reports every sector once, by what its read gave, and counts the reports; none follows once the flag is up for certain |
| `DecodeJob.DecodeJob.VerifyTracks` | src/decodejob.cpp:245-283 | the triple loop reports and counts all sectors unless cancelled, with the progress of each track behind its sectors |
| `DecodeJob.DecodeJob.VerifySectors` | src/decodejob.cpp:196-315 | on success the reports are those of every sector and the counters their numbers; good plus bad is the total whatever the reads did; with faultless reads good is exact; a late cancel is always noticed |
| `DecodeJob.ReportsAreCounted` | src/decodejob.cpp:245-303 | the counters of a verification are the numbers of good and bad reports it sent |
| `DecodeJob.HeadInNumbers` | src/decodejob.cpp:250-276 | each report names its own track and sector and says what its read gave |
| `DecodeJob.ProgressInNumbers` | src/decodejob.cpp:279-281 | progress is 30 plus the whole share of 50 by tracks, and 85 plus the whole share of 10 by bytes |
| `DecodeJob.DecodeJob.CopyChunks` | src/decodejob.cpp:344-374 | the copy loop with arbitrary chunks copies everything unless it fails or is cancelled; each progress value is the share of the bytes copied |
| `DecodeJob.DecodeJob.ConvertImage` | src/decodejob.cpp:321-389 | all or nothing: a full copy; after a short write or an observed cancel no destination, or, where it cannot be removed, the first bytes of the source; after any earlier failure nothing changed; no other file ever changes |
| `DecodeJob.DecodeJob.LoadImage` | src/decodejob.cpp:151-190 | the geometry in use is the validator's with defaults for what it does not know |
| `DecodeJob.DecodeJob.LoadPhase` | src/decodejob.cpp:65-107 | loading reports exactly its nine signals or breaks off for a named reason; a flag that is up before it always ends the job there |
| `DecodeJob.DecodeJob.RunJob` | src/decodejob.cpp:65-145 | one terminal signal, or none exactly when a cancel was seen after the copy; each ending is justified and says what became of the files; `finished` means complete counters, no bad sector exactly under the suffix and size condition, and a faithful copy; progress never falls; no sector is looked at once the flag is up for certain, and none of the cancelled endings comes before it may be |
| `DecodeJob.SilentRun` | src/decodejob.cpp:380-384 | a run in which all goes well, the cancel comes on the last report of the copy, and no terminal signal is sent |
| `HardwareTab.HardwareTab.constructor` | src/hardwaretab.cpp:130-172 | the invariant holds at the start |
| `HardwareTab.HardwareTab.Rewire` | src/hardwaretab.cpp:287-293 | afterwards each button has exactly the handlers the live provider's capabilities call for |
| `HardwareTab.HardwareTab.WireAll` | generated/tab_hardware_wiring.gen.cpp:39-236 | the wiring phase after disconnect and disable |
| `HardwareTab.HardwareTab.WireAction` | include/uft/gui/wiring_runtime.h:196-233 | one button: enabled with one handler, or disabled |
| `HardwareTab.HardwareTab.UpdateMotorControls` | src/hardwaretab.cpp:1426-1445 | motor-on exactly when connected, capable and not running; motor-off exactly when running; no other button changes |
| `HardwareTab.HardwareTab.SetConnectionState` | src/hardwaretab.cpp:1370-1413 | the flag and both motor buttons follow |
| `HardwareTab.HardwareTab.IssueMotorOffIfRunning` | src/hardwaretab.cpp:330-351 | a running motor gets its off command and the flag falls |
| `HardwareTab.HardwareTab.OnDisconnect` | src/hardwaretab.cpp:1108-1139 | motor off if it runs, then destruction, nothing else; the invariant holds |
| `HardwareTab.HardwareTab.ShowHardwareDisconnected` | src/hardwaretab.cpp:1261-1279 | a lost device is torn down the same way |
| `HardwareTab.HardwareTab.RunDetectProbe` | src/hardwaretab.cpp:353-380 | a probe asks the connected, capable provider once and keeps it or ends disconnected |
| `HardwareTab.HardwareTab.OnConnect` | src/hardwaretab.cpp:712-1106 | which answers create a provider, start a timer or do nothing, and the state that results |
| `HardwareTab.HardwareTab.SimulatedConnection` | src/hardwaretab.cpp:1086-1105 | a late timer only sets the connection flag, even over a real provider |
| `HardwareTab.HardwareTab.OnDetectionModeChanged` | src/hardwaretab.cpp:1349-1367 | switching to automatic detection probes, switching back does not |
| `HardwareTab.HardwareTab.ClickButton` | generated/tab_hardware_wiring.gen.cpp:39-236 | a button that is off does nothing; otherwise one command goes to the live provider and its answer takes effect |
| `HardwareTab.HardwareTab.OnMotorOutcome` | src/hardwaretab.cpp:1159-1177 | the motor flag follows the report |
| `HardwareTab.HardwareTab.Session` | src/hardwaretab.cpp:215-285 | over every sequence of events and answers the tab runs its state machine, the invariant holds after each event, and the motor flag is the last report |
| `HardwareTab.HardwareTab.LogGrows` | src/hardwaretab.cpp:215-285 | in every session of the state machine what was sent stays sent, so the log theorems speak of whole sessions |
| `HardwareTab.HardwareTab.FlagIsLastReport` | src/hardwaretab.cpp:1159-1177 | every event keeps the motor flag up exactly while the last report on the live provider's motor says that it runs |
| `HardwareTab.HardwareTab.SessionFlag` | src/hardwaretab.cpp:215-285 | the same over every session, in both directions |
| `HardwareTab.HardwareTab.MotorClick` | src/hardwaretab.cpp:1159-1177 | a click on a motor button sends its command; after a running report only motor-off is on, after a stopped or stalled one only motor-on, and a lost device is gone |
| `HardwareTab.HardwareTab.OperationClick` | generated/tab_hardware_wiring.gen.cpp:39-236 | any other click sends one operation; a lost device is stopped and destroyed, any other stays as it is |
| `HardwareTab.HardwareTab.ConnectClick` | src/hardwaretab.cpp:712-1106 | a click closes an open connection; otherwise a new provider of the chosen kind appears exactly under the named conditions, a simulated connection starts a timer, and nothing else changes |
| `HardwareTab.HardwareTab.OtherEvents` | src/hardwaretab.cpp:1086-1105 | what the timer and the detection mode do |
| `HardwareTab.HardwareTab.ButtonsNeed` | generated/tab_hardware_wiring.gen.cpp:39-236 | the capability each of the seven buttons needs |
| `HardwareTab.StaysSpinning` | src/hardwaretab.cpp:330-351 | a motor reported running spins until told to stop, reported at rest or destroyed |
| `HardwareTab.DestroyedAtRest` | src/hardwaretab.cpp:330-351 | between a running report and the destruction of a provider there is a stop |
| `HardwareTab.GoneForGood` | src/hardwaretab.cpp:287-316 | nothing is ever sent to a destroyed provider |
| `FluxHistogram.CenterNear` | src/uft_flux_histogram_widget.cpp:351-358 | the weighted center lies strictly within one bin of its peak |
| `FluxHistogram.PeaksThreeApart` | src/uft_flux_histogram_widget.cpp:338-341 | two qualifying bins are at least three apart |
| `FluxHistogram.SelectionUnique` | src/uft_flux_histogram_widget.cpp:331-373 | the declarative description of the peaks leaves only one choice |
| `FluxHistogram.PeakTimesIncrease` | src/uft_flux_histogram_widget.cpp:384-423 | peaks are max(3, minimum distance) apart, their times positive and increasing, every ratio above 1 |
| `FluxHistogram.RatioWithin` | src/uft_flux_histogram_widget.cpp:396-423 | comparing a ratio is comparing with a multiple |
| `FluxHistogram.BinInNumbers` | src/uft_flux_histogram_widget.cpp:309-312 | the nanoseconds each bin takes |
| `FluxHistogram.PeaksInNumbers` | src/uft_flux_histogram_widget.cpp:322-378 | which bins are peaks: higher than two neighbours on either side, a twentieth of the largest, and 500 ns behind every earlier peak |
| `FluxHistogram.CenterInNumbers` | src/uft_flux_histogram_widget.cpp:351-358 | the center is the weighted mean of five positions |
| `FluxHistogram.TimeInNumbers` | src/uft_flux_histogram_widget.cpp:388-391 | a peak's time is within one bin width of where its bin begins, by as much as its center is off |
| `FluxHistogram.EncodingInNumbers` | src/uft_flux_histogram_widget.cpp:393-435 | MFM and FM are ratios of 1.5 and 2 within 0.2 |
| `FluxHistogram.Histogram.BuildHistogram` | src/uft_flux_histogram_widget.cpp:303-320 | each bin counts its samples, with truncating conversion and division; the bins sum to the samples in range; the maximum is the largest bin |
| `FluxHistogram.Histogram.DetectPeaks` | src/uft_flux_histogram_widget.cpp:322-378 | every peak is a qualifying bin with its height and center; every qualifying bin is a peak or lies closer than the minimum distance behind one |
| `FluxHistogram.Histogram.DetectEncoding` | src/uft_flux_histogram_widget.cpp:380-439 | MFM, FM or undecided by the times of the first peaks; the cell time is the first one |
| `FluxHistogram.Histogram.SetFluxData` | src/uft_flux_histogram_widget.cpp:64-71 | histogram, peaks and encoding all follow from the samples |
| `ProScanner.AlwaysInStep` | scripts/verify_build_sources.py:107-130 | over every line sequence: while skipping, brace depth is skip origin plus skip depth; otherwise no origin |
| `ProScanner.ScanForest` | scripts/verify_build_sources.py:107-131 | on any block structure the scan keeps exactly the lines that count, as text and as a mark for each plain line, and restores its counters |
| `ProScanner.ScanReadsStructure` | scripts/verify_build_sources.py:107-131 | every well-nested line sequence has such a structure |
| `ProBuild.SuitsIff` | UnifiedFloppyTool.pro:1626-1649 | the lines outside opt-in blocks are those of the build if and only if no line shows in the build alone or in the scan alone, by the structure and the truth of its conditions |
| `ProBuild.ScanIsQmakeIff` | scripts/verify_build_sources.py:78-88 | for every block structure and every truth of the other conditions, the scan keeps exactly the lines of the default build, line by line, if and only if the structure suits it |
| `ProBuild.CommentedScanIsQmakeIff` | scripts/verify_build_sources.py:99-121 | the same for text with comments, which qmake drops, as long as no comment hides or shows a brace |
| `ProBuild.ElseSourceIsLost` | scripts/verify_build_sources.py:107-131 | a file whose else branch names a source that the scan drops and the build compiles |
| `ProBuild.UnlistedFlagIsKept` | UnifiedFloppyTool.pro:1626-1649 | a file whose unlisted flag guards a source that the scan lists and the default build leaves out |
| `ProBuild.CommentHidesBrace` | scripts/verify_build_sources.py:103-112 | a file that suits every build but for a comment behind its opening brace: the scan lists a source that no default build takes |
| `ProScanner.OptInOpens` | scripts/verify_build_sources.py:103-105 | an opt-in opener opens and never closes |
| `ProWords.OptInIff` | scripts/verify_build_sources.py:81-103 | an opt-in opener is one of the three flags and a brace, white space apart |
| `ProWords.OpenIff` | scripts/verify_build_sources.py:104 | an opener ends in an opening brace |
| `ProWords.CloseIff` | scripts/verify_build_sources.py:105 | a closer starts with a closing brace |
| `ProScanner.ParseProLists` | scripts/verify_build_sources.py:91-140 | the first scanner yields the source words of exactly the kept lines |
| `ProScanner.ParseProIncludepaths` | scripts/check_consistency.py:43-87 | the second copy keeps exactly the same lines and yields their include paths in order |
| `ProWords.WordsAre` | scripts/verify_build_sources.py:135 | splitting lists every maximal run of characters that are no white space, in order, and nothing else |
| `ProWords.SourceIff` | scripts/verify_build_sources.py:131-139 | a file is reported exactly when some kept line assigns the key a text in which it is such a run before any comment, no qmake variable and with one of the extensions |
| `ProWords.PathIff` | scripts/check_consistency.py:74-87 | the same for the include paths and the words they are made of |
| `ProWords.PathOfWord` | scripts/check_consistency.py:81-86 | what path a word gives, and when none |
| `ProWords.PathsJoin` | scripts/check_consistency.py:74-87 | the paths come in the order of lines and words |
| `ProWords.WithoutIs` | scripts/check_consistency.py:84 | taking a prefix variable out removes its occurrences from the left and nothing else |
| `ProScanner.SourcesAreWords` | scripts/verify_build_sources.py:134-139 | every reported source is a word without white space that names a source |
| `PythonText.SplitUnlines` | scripts/verify_build_sources.py:149 | splitting undoes joining for lines without line breaks |
| `PythonText.SplitLinesAre` | scripts/verify_build_sources.py:149 | splitting any text keeps every character but the line endings |
| `Baseline.LoadBaseline` | scripts/verify_build_sources.py:143-158 | the loader finds exactly the files of the entry lines |
| `Baseline.WriteBaseline` | scripts/verify_build_sources.py:161-179 | the text is the header and one row for each file |
| `Baseline.LoadedAreClean` | scripts/verify_build_sources.py:149-157 | whatever the file holds, every loaded path is free of line breaks and of white space at its end |
| `Baseline.LoadUndoesWrite` | scripts/verify_build_sources.py:143-179 | for such paths loading returns the two sets that were written, in any order of rows |
| `Baseline.RoundTripIffClean` | scripts/verify_build_sources.py:143-179 | and for no others |
| `Baseline.Run` | scripts/verify_build_sources.py:210-259 | the gate fails exactly when a current gap is missing from the baseline; a rebuild writes the current gaps |
| `Baseline.GateIff` | scripts/verify_build_sources.py:213-259 | the gate passes exactly when every globbed file missing from the project file has a row A in the text of the baseline and every listed file missing on disk a row B |
| `Baseline.RebuildThenCheck` | scripts/verify_build_sources.py:213-259 | after a rebuild an unchanged tree passes if and only if every gap is a clean path |
| `Baseline.OnlyDiskNamesMatter` | scripts/verify_build_sources.py:210-214 | entries scanned from the project file are always clean, so only names on disk can spoil it |
| `Baseline.OnlyBreaksMatter` | scripts/verify_build_sources.py:55-69 | names collected from disk end in a source extension, so after a rebuild the unchanged tree passes if and only if no missing source has a line break in its path |
| `Baseline.BreakSpoilsRebuild` | scripts/verify_build_sources.py:213-259 | a tree on which the check straight after the rebuild fails |
| `TextScan.CountText` | src/forensictab.cpp:522-536 | the jumping loop counts the maximal printable runs of length eight or more, despite its bound and the byte it skips |
| `TextScan.LongRunInNumbers` | src/forensictab.cpp:522-536 | what is counted: starts of runs of at least eight bytes from 0x20 to 0x7E |
| `TextScan.RunsNeedRoom` | src/forensictab.cpp:522-536 | long runs never touch: each needs nine positions |
| `TextScan.CountZeroBlocks` | src/forensictab.cpp:541-552 | the all-zero 256-byte blocks are counted, with a short last one |
| `TextScan.ZeroBlockInNumbers` | src/forensictab.cpp:541-552 | what is counted: blocks of 256 zero bytes, or fewer at the end |
| `RecentFiles.MainWindow.OpenFile` | src/mainwindow.cpp:289-310 | after every history the list holds the ten most recently opened distinct names, newest first; an invalid image changes nothing |
| `RecentFiles.MainWindow.Restore` | src/mainwindow.cpp:200 | a list saved by an earlier session carries that session's history on |
| `RecentFiles.MainWindow.ClearRecent` | src/mainwindow.cpp:370-376 | a clear empties it and starts a new history |
| `RecentFiles.MostRecentUnique` | src/mainwindow.cpp:304-309 | only one list is the most recent one, so cutting it early never changes a later result |
| `RecentFiles.LastOpenIs` | src/mainwindow.cpp:304-309 | a name's last opening is its last valid one with no clear behind it |
| `RecentFiles.TenAtMost` | src/mainwindow.cpp:304-309 | at most ten names; a shorter list holds every name opened since the last clear |
| `RecentFiles.RemoveFirst` | src/mainwindow.cpp:305 | removing a name from distinct names takes out its one place |

## Left out

- Widgets, dialogs, painting, styles, message texts, settings, serial ports and the SCP writer and parser
  behind their calls: user interface and input/output. Device, file and library answers are arbitrary values.
- `DecodeJob.DecodeJob.RunJob`: copying a file onto itself empties it first; the model says so and promises no
  faithful copy there. Reads that deliver nothing while data remains are not modelled.
- `HardwareTab.HardwareTab.OnConnect`: message boxes that run a nested event loop in the middle of a connection
  attempt are taken as instantaneous; role handling, combo boxes and port lists are not modelled.
- HardwareTab's destructor: the motor-off property covers events, not the destruction of the widget.
- `FluxHistogram.Histogram.BuildHistogram`: real arithmetic stands for floating point; the 32-bit wrap of a bin
  count and the conversion of a sample beyond the range of int are not modelled.
- `FluxHistogram.Histogram.DetectPeaks`: the final sort is the identity on a list that is already increasing.
- Setters of the histogram, the automatic range and the wheel zoom, which leave the bins of the old view in place.
- `FluxCaptureSafety.RunProgress`: cylinders times sides and step times 100 are taken without 32-bit overflow.
- `Dmk.PerformAnalysis`: the header and the pointer table are read in little-endian order, as on the hosts the
  program runs on; reading the file itself and the progress signals are not modelled.
- `Dmk.ReadSectorAt`: the fields of a sector whose data is not read, which the program leaves as they are, are
  taken as unset.
- `DiskImage.Validate`: whether the first bytes carry a known magic is a parameter; names and platforms are not
  modelled.
- `ProScanner.ParseProLists`: lines come after the joining of continuation lines; reading and decoding the file
  is not modelled.
- `ProBuild.CommentedScanIsQmakeIff`: promises nothing for text in which a comment hides or shows a brace.
- `ProBuild.ScanIsQmakeIff`: conditions are true or false by their place in the file; scopes on one line
  (`cond: SOURCES += x`, `else: ...`), qmake's functions, assignments with `-=` and changes of variables between
  scopes are not modelled.
- `Baseline.WriteBaseline`: the header is any list of blank and comment lines, and rows may come in any order.
- `Baseline.OnlyBreaksMatter`: a name on disk that cannot be encoded as UTF-8 makes the rebuild itself raise;
  paths here are sequences of Unicode characters, so such names are not modelled.
- `RecentFiles.MainWindow.OpenFile`: a saved list is taken to be what an earlier session left; settings edited
  by hand are not modelled.
- MD5 and SHA sums, protection heuristics, reports and hex views of the forensic tab.
- Regular-expression patch scripts and header audits beyond the scanner and the baseline.
