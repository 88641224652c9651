# SERENDIP VI data pipeline: a verified model

SERENDIP VI turns UDP packets of radio-telescope samples into tables of narrow-band "hits".
A network thread sorts packets by their counter (`mcnt`) into a ring of blocks, a GPU thread
computes spectra and finds hits, an output thread writes them to ETFITS files. This project
models that path in Dafny and proves what it promises, for all packet streams, all
interleavings of the three threads and all configurations of block length, ring size,
sources and row sizes.

| file | what it holds |
|---|---|
| `Arith.dfy` | `uint64_t`/`int64_t` readings and facts about division and ring slots |
| `Placement.dfy` | where each word of each packet goes in a block, for Arecibo, DiBAS (Green Bank) and FAST |
| `Assembler.dfy` | `process_packet` as a state machine on values, its invariant, resets |
| `Jitter.dfy` | how much disorder among packets the two-block window takes |
| `Chronicle.dfy` | resets, channels, times and counters told from how the packets of a run were classed |
| `Ledger.dfy` | the missed-packet counters and the data of a block against the packets stored in it |
| `Delivery.dfy` | which packets of a run end up in which block |
| `PktsockThread.dfy` | the network thread as a class that updates its fields, headers and data in place |
| `Pipeline.dfy` | the three threads, interleaved at each access to the shared rings |
| `EndToEnd.dfy` | from packets on the wire to what the output thread reads, in any history of resets |
| `Spectrum.dfy` | baseline and hits of a spectrum: as they should be and as they are computed |
| `Detector.dfy` | the device vectors and the loops that fill them, up to labelled hits |
| `Density.dfy` | how many hits a spectrum can have |
| `Labels.dfy` | polarisation and channel of a spectrum, FFT addresses, transposition |
| `LabelledWire.dfy` | labels against the packets a spectrum was made of |
| `FakeData.dfy` | the fake-data generator's scatter |
| `HitTables.dfy` | which hits of a block go into which table |
| `Etfits.dfy` | the ETFITS writer and the output thread's file decisions, as values |
| `FileHistory.dfy` | the files of a run, told from its events alone, and the proof that the writer leaves these |
| `OutputThread.dfy` | the writer and the output loop as classes that update their fields in place |
| `WireToFile.dfy` | the three threads, hit detection and the writer together: from packets to hit tables on disk |
| `ChannelNumber.dfy` | system-wide fine channel numbers |

How the source is read:

* `mcnt` is 56 bits wide; `uint64_t` arithmetic wraps (`U64`) and the packet distance is the
  wrapped difference read as `int64_t`. `ValidConfig` bounds a block to 2^32 mcnts, the ring
  to 2^16 blocks and a DiBAS packet to 128 spectra, far above every build, so that the sums
  the program forms cannot wrap.
* Everything the outside world decides is a parameter: packets and their order, the clock,
  the interleaving of the threads, FFT output, what the observatory reports, whether a file
  has reached its size.
* Powers, sums and baselines are real numbers. A division by zero gives what floating point
  gives (an infinity or not-a-number), because a hit depends on it.
* thrust calls keep their sequence meaning (scan by key, transform, copy_if, gather,
  reduce_by_key) and are written as the loops they stand for.

Main results:

* `WireToFile.WireToDisk`: in any run of the three threads, the hit tables on disk are, at the
  expected place, those of the hits detected in the data the wire carried.
* `EndToEnd.StreamToOutput`, `Pipeline.Fifo`, `Pipeline.Progress`, `Pipeline.WaitEnds`: blocks travel through both
  rings unchanged, in order, without deadlock, under every interleaving.
* `Delivery.NothingLost`, `Delivery.ResetThenComplete`, `Jitter.JitterTolerance`: within half a
  block of jitter no packet is lost, from start-up and from any reset on, and half a block is
  the limit (`Jitter.JitterLimit`, `Jitter.JitterLimitBehind`).
* `Assembler.RingOrder`, `Ledger.ExactLossInRuns`, `Chronicle.ResetsWhen`, `Chronicle.HeadersTold`:
  what holds of every packet stream at all.
* `PktsockThread.Assembling.ProcessPacket`, `Detector.Spectroscopy`, `OutputThread.RunOutput`: the
  code that updates state in place does what the value models say.
* `Density.SpectrumFits`, `Spectrum.BaselineRefinement`, `Detector.DetectedTurned`,
  `LabelledWire.DibasLabelsTrue`: baselines, hits and labels mean what they should.
* `FileHistory.FilesHold`, `HitTables.TableMeans`: which blocks and which hits are in the files.

Where the source and its own comments disagree the model follows the code. A lemma says when
the comment holds, and where it takes a run to see that it may not, another lemma gives one
from start-up:

* The comment in a reset promises the first value at or above the packet's mcnt
  (src/s6_pktsock_thread.cpp:686-688); rounding down can end below it:
  `Assembler.ResetReachesPacket`, `Assembler.ResetFallsShort`.
* The return value is meant to report every block that was filled; a packet from a bad
  source that fills one reports nothing: `Assembler.ReturnTellsOfFill`, `Assembler.FillUntold`.
* `initialize_block` and the GPU thread's copy treat `missed_pkts` as having `N_BORS` and
  `N_BEAM_SLOTS` members: `Pipeline.MissedArrive` says when the counters arrive,
  `EndToEnd.LossesHidden` gives a block whose losses do not.
* The counters are exact as long as no packet is stored twice: `Ledger.ExactLoss`,
  `Ledger.RepeatMiscounts`.
* The stride-of-two split of the coarse channel powers suits Green Bank's order of spectra,
  not Arecibo's: `Labels.PowersInSlots`; the same holds of the fake data: `FakeData.ScatterMeetsLabels`.
* `MAXGPUHITS` is sized by `MIN_POWER_THRESH`, 10, as if a tenth of the bins were the most
  hits possible at that threshold. At all three instruments a spectrum can have more for every
  threshold up to 17.8 (`Density.LowThresholdOverflows`) and cannot from 19.99 on
  (`Density.SpectrumFits`); in between it is open. At the `POWER_THRESH` of 20 in use,
  `Density.HitArraysFit` says exactly when the arrays suffice for a call.

## Model

| member | source | states |
|---|---|---|
| Placement.PlacementInjective | src/s6_pktsock_thread.cpp:604-651 | every word of every expected packet has a place in the used area of the block, and the place tells the packet, source and word |
| Placement.PlacementSurjective | src/s6_pktsock_thread.cpp:604-651 | every word of the used area is the place of a word of an expected packet |
| Placement.PacketsDisjoint | src/s6_pktsock_thread.cpp:604-651 | two packet words share a place if and only if they are the same word of the same packet |
| Placement.OrderIndependent | src/s6_pktsock_thread.cpp:604-651 | after any sequence of packets of one stream, repeats included, a word whose packet came holds the stream's word and any other is as it was |
| Placement.CompleteBlock | src/s6_pktsock_thread.cpp:604-651 | once all expected packets have come, in any order, the block is the specified rearrangement of the stream |
| Assembler.StepInv | src/s6_pktsock_thread.cpp:493-717 | whatever the packet, the thread afterwards holds two neighbouring slots labelled mcnt_start and mcnt_start + Nm, mcnt_start is a multiple of Nm below 2^56 + ring length, and slots were given away in ring order |
| Assembler.StartInv | src/s6_pktsock_thread.cpp:402-426 | start-up establishes that invariant with blocks 0 and 1 |
| Assembler.Distances | src/s6_pktsock_thread.cpp:493-499 | under the invariant the signed packet distance is the plain difference, and packets of the window map to the two held slots |
| Assembler.RingOrder | src/s6_pktsock_thread.cpp:277-299 | in every run, with any number of resets, the k-th block filled is slot k mod N_INPUT_BLOCKS, block_i is where mcnt_start and last_filled say, and neither warning is issued |
| Assembler.StepWritesHeldSlots | src/s6_pktsock_thread.cpp:513-717 | every header, counter and data write of every branch goes to a held slot or the one just waited for |
| Assembler.ResetMinimal | src/s6_pktsock_thread.cpp:685-699 | a reset moves to the least multiple of Nm, not below the packet's own block start, that has the slot already held |
| Assembler.ResetReachesPacket | src/s6_pktsock_thread.cpp:686-697 | the new start is at or above the packet's mcnt if and only if the packet's block has another slot or the packet is the first of its block |
| Assembler.ResetFallsShort | src/s6_pktsock_thread.cpp:685-697 | it is not always: from start-up, the second mcnt of a block of slot 0, sent once more than MAX_OUT_OF_SEQ, makes the thread reset to the mcnt before it |
| Assembler.ReturnTellsOfFill | src/s6_pktsock_thread.cpp:549-594 | a block is filled exactly by packets 3/2 blocks ahead; the return value is that block's mcnt if and only if the packet's source is valid, and -1 when none is filled |
| Assembler.FillUntold | src/s6_pktsock_thread.cpp:549-594 | one packet of a bad source after start-up fills a block and the return value is -1 |
| Jitter.JitterTolerance | src/s6_pktsock_thread.cpp:514-579 | from start-up, if each packet is within Nm/2 of the largest mcnt before it, none is ever late or out of sequence |
| Jitter.JitterLimit | src/s6_pktsock_thread.cpp:514-579 | Nm/2 is the exact limit: in every configuration a packet one mcnt further ahead of the largest can be out of sequence |
| Jitter.JitterLimitBehind | src/s6_pktsock_thread.cpp:653-662 | and one that is one mcnt further behind can be late |
| Jitter.JitterAfter | src/s6_pktsock_thread.cpp:657-670 | from a state as resets leave it, a jittered run has no packet out of sequence, and none late once a block has been filled |
| Jitter.ResetCatches | src/s6_pktsock_thread.cpp:685-714 | every reset leaves such a state |
| Jitter.ResetResynchronises | src/s6_pktsock_thread.cpp:685-716 | after any history and a reset, a jittered run is followed without a packet out of sequence |
| Jitter.ConsecutiveIsJittered | src/s6_pktsock_thread.cpp:514-579 | consecutive mcnts are a jittered run |
| Chronicle.StraysCounted | src/s6_pktsock_thread.cpp:581-582 | in every run, the out-of-sequence count is the number of such packets since the last accepted one; late packets and resets do not interrupt it |
| Chronicle.ResetsWhen | src/s6_pktsock_thread.cpp:679-684 | a packet makes the thread reset if and only if it is out of sequence and behind 2 N_BORS others since the last accepted one; fewer change nothing but the count |
| Chronicle.TaleMeans | src/s6_pktsock_thread.cpp:548-714 | blocks are filled by the closing packets in turn, and each was opened by the packet that filled the last but one before it, or by the last reset after that |
| Chronicle.HeadersTold | src/s6_pktsock_thread.cpp:381-398 | every block filled carries channel fields and source of the packet that opened it, zeros if start-up did, and the time of the packet that filled it |
| Chronicle.CountersTold | src/s6_pktsock_thread.cpp:577-585 | the packet counter of a held block is the number of packets accepted for it since it was opened |
| Chronicle.LogLateTold | src/s6_pktsock_thread.cpp:698 | mcnt_log_late is a block behind the start of the last reset, or of start-up |
| Chronicle.ChannelsTold | src/s6_pktsock_thread.cpp:338-352 | pchan and nchan are those of the first packet stored with any, since the block became the current one or a reset |
| Ledger.KeptAgrees | src/s6_pktsock_thread.cpp:585-651 | every step keeps headers, counters and data equal to what the packets stored since initialisation make of them |
| Ledger.BooksAgree | src/s6_pktsock_thread.cpp:513-717 | so does every run, for the two held blocks and every block handed on |
| Ledger.DistinctCount | src/s6_pktsock_thread.cpp:596-602 | the packets counted for a source are at least its distinct mcnts, and as many if and only if none repeats |
| Ledger.ExactLoss | src/s6_pktsock_thread.cpp:388-390 | missed_pkts[s] is the number of the block's mcnts never stored for source s, at FAST for any source, if and only if no mcnt was stored twice for it; it is then Nm minus the distinct packets |
| Ledger.RepeatMiscounts | src/s6_pktsock_thread.cpp:596-602 | after one packet twice and one that closes block 0, its counter is one below the number of mcnts that never came |
| Ledger.ExactLossInRuns | src/s6_pktsock_thread.cpp:581-602 | the same of every block filled in every run |
| Ledger.SilentCounter | src/s6_pktsock_thread.cpp:388-390 | in every run, a counter for which no packet comes is Nm in every block filled |
| Ledger.Contents | src/s6_pktsock_thread.cpp:604-651 | every word of a block whose packet was stored is that packet's word; every other is from before the block was initialised |
| Delivery.NothingLost | src/s6_pktsock_thread.cpp:513-653 | in a jittered run the k-th block filled holds exactly the packets of the whole run that belong to it, in order of arrival |
| Delivery.DeliveredData | src/s6_pktsock_thread.cpp:604-651 | in a jittered run, from start-up or a reset on, every word of a block filled that belongs to a packet of the run, whenever that came, is the stream's |
| Delivery.DeliveredLoss | src/s6_pktsock_thread.cpp:596-602 | in a jittered run the counters of every block filled are Nm minus its packets in the whole run, which is the number of its mcnts no packet of the run had if and only if none came twice |
| Delivery.ResetThenComplete | src/s6_pktsock_thread.cpp:685-716 | after a reset, when each source of a set sends every following mcnt once and all of them interleave with jitter up to Nm/2, every block after the first, and the first if it starts above the resetting packet, misses no packet of these sources and holds every word of theirs in its place |
| Delivery.RoundRobin | src/s6_pktsock_thread.cpp:514-579 | all sources taking turns, mcnt by mcnt, are such a run |
| PktsockThread.AreciboOffset | src/s6_pktsock_thread.cpp:609-612 | the Arecibo offset in 64-bit words is the start of the packet's row |
| PktsockThread.DibasOffset | src/s6_pktsock_thread.cpp:619-632 | the offset of each sub-spectrum of each DiBAS spectrum is the start of its row, without wrap-around |
| PktsockThread.FastOffset | src/s6_pktsock_thread.cpp:641-642 | the FAST offset is the start of the packet's row |
| PktsockThread.Assembling.StoreSpectrum | src/s6_pktsock_thread.cpp:621-637 | after spectrum s of a DiBAS packet exactly the words owned by its first s + 1 spectra hold the packet's words |
| PktsockThread.Assembling.StorePayload | src/s6_pktsock_thread.cpp:604-651 | the copy loops of each layout change the block to its specified placement and no other block |
| PktsockThread.Assembling.StorePacket | src/s6_pktsock_thread.cpp:581-651 | counters, first channel numbers, missed count and data of an accepted packet |
| PktsockThread.Assembling.ResetTo | src/s6_pktsock_thread.cpp:685-714 | the reset branch, with its rounding and recycling of two blocks |
| PktsockThread.Assembling.ProcessPacket | src/s6_pktsock_thread.cpp:462-720 | process_packet: its whole effect and its return value are those of the value model |
| Pipeline.NextInv | src/s6_gpu_thread.cpp:161-326 | every event of every thread keeps: blocks between freed and filled are flagged and unchanged since they were filled, all others are free, and each thread holds what it works on |
| Pipeline.AfterInv | src/s6_gpu_thread.cpp:161-326 | so does every interleaving |
| Pipeline.Fifo | src/s6_output_thread.cpp:123-136 | the output thread reads, block for block and in order, what was marked filled, with its mcnt, channel and time fields and the result of spectroscopy on its data; nothing lost, repeated or overwritten |
| Pipeline.MissedArrive | src/s6_gpu_thread.cpp:217-219 | the missed-packet counters arrive unchanged if and only if all those not copied are zero |
| Pipeline.Progress | src/s6_gpu_thread.cpp:161-202 | never are all three threads blocked on flags; the net thread takes any packet when ready, goes on from its wait exactly when the next block is free, and until then one of the others can move |
| Pipeline.WaitEnds | src/s6_pktsock_thread.cpp:559-573 | every wait for a free block ends: whatever the other threads do meanwhile is at most a bounded number of events, and when they can do no more the net thread goes on |
| EndToEnd.SettledRuns | src/s6_pktsock_thread.cpp:513-717 | whatever the other threads do in between, the ring sees exactly the assembler's run |
| EndToEnd.BlockFromWire | src/s6_pktsock_thread.cpp:513-653 | every block filled in a jittered run, from start-up or a reset on, is the block of the expected mcnt, its data the wire's, its losses counted |
| EndToEnd.BlockOfHistory | src/s6_pktsock_thread.cpp:462-720 | the same in any history of packets, for every jittered stretch from start-up or from a reset on, whatever comes before and after it |
| EndToEnd.StreamToOutput | src/s6_output_thread.cpp:123-136 | the same of the blocks the output thread reads, through the GPU thread, under every interleaving |
| EndToEnd.StreamFromStart | src/s6_output_thread.cpp:123-136 | when all packets are such a stretch from start-up, the k-th block read is that of mcnt k Nm |
| EndToEnd.SilenceHidden | src/s6_gpu_thread.cpp:217-219 | in every run, a counter beyond N_BEAM_SLOTS for which no packet comes is 0 in every block read, though Nm packets are missed |
| EndToEnd.LossesHidden | src/s6_gpu_thread.cpp:217-219 | a run in which that happens, wherever there is such a counter |
| Spectrum.BaselineRefinement | src/s6GPU.cu:267-299 | the three-case difference of scan values is the mean of a window of 2 radius bins clamped inside the bin's region |
| Spectrum.WindowInRegion | src/s6GPU.cu:280-298 | the window never leaves the region, never holds its last bin, and holds the bin itself if and only if that is not the last |
| Spectrum.BaselineBetween | src/s6GPU.cu:280-298 | the baseline lies between the least and greatest power of the window |
| Spectrum.HitsExact | src/s6GPU.cu:534-540 | the hit list is increasing and holds exactly the bins over threshold |
| Spectrum.HitMeans | src/s6GPU.cu:279-298 | a bin is a hit if and only if its power is more than threshold times the mean of the 2 radius bins around it, or at the ends of its region of the first or the last 2 radius before its last bin; without power there, if it has any |
| Spectrum.HitsScaleFree | src/s6GPU.cu:507-540 | scaling all powers by a positive constant changes no hit |
| Spectrum.LastBinIsolated | src/s6GPU.cu:432-435 | what is left in a region's last bin changes no baseline and no other bin's being a hit |
| Detector.DeviceVectors.ComputePowerSpectrum | src/s6GPU.cu:426-439 | all powers but the last are set; the last keeps its value |
| Detector.PowerMeans | src/s6GPU.cu:243-249 | the power of a product is the product of the powers, of a real number its square, and zero for zero alone |
| Detector.DetectedTurned | src/s6GPU.cu:677-848 | multiplying every FFT output by one complex number other than zero changes no hit and no label, and scales powers and baselines by its power |
| Detector.DeviceVectors.ScanByRegion | src/s6GPU.cu:480-488 | the scan by key is, for each bin, the sum before it in its region |
| Detector.DeviceVectors.ComputeBaseline | src/s6GPU.cu:471-504 | every baseline is the mean of the bin's window |
| Detector.DeviceVectors.NormalizePowerSpectrum | src/s6GPU.cu:507-518 | power over baseline, bin by bin |
| Detector.DeviceVectors.FindHits | src/s6GPU.cu:520-562 | the first indices over threshold, at most maxhits, with their powers and baselines |
| Detector.DeviceVectors.ReducePowerSpectra | src/s6GPU.cu:453-469 | the mean power of each spectrum |
| Detector.MeansConserve | src/s6GPU.cu:453-469 | the means, times the length of a spectrum, are together all the powers |
| Detector.DeviceVectors.ReduceCoarseChannels | src/s6GPU.cu:609-647 | those means, alternately to X and Y |
| Detector.DetectedExact | src/s6GPU.cu:534-561 | the labelled list is exactly the first maxhits bins over threshold in increasing order, each with its own power, baseline and label; one is missing only behind maxhits earlier ones |
| Detector.LabelHits | src/s6GPU.cu:816-830 | the i-th hit written has the i-th power, baseline and the label of the i-th index |
| Detector.Spectroscopy | src/s6GPU.cu:677-848 | the powers are those of the FFT output but for the last, which is zero; the hits are exactly those DetectedExact and DetectedTurned speak of, the channel powers the means of the spectra, alternately X and Y |
| Density.RunBound | src/s6GPU.cu:279-298 | at most radius consecutive bins of a region without its last hold no hit or fewer than 2 radius / threshold |
| Density.SpectrumBound | src/s6GPU.cu:534-540 | so a spectrum of k such runs holds at most k q + 1 hits |
| Density.SpectrumFits | src/s6_databuf.h:101-103 | with the constants of each instrument and thresholds from 19.99 up, POWER_THRESH among them, a spectrum has at most MAXGPUHITS hits |
| Density.HitArraysFit | src/s6_databuf.h:170-175 | at POWER_THRESH the hits of every call fit the MAXGPUHITS members of the hit arrays if and only if maxhits is at most MAXGPUHITS or the call has one spectrum |
| Density.LowThresholdOverflows | src/s6_databuf.h:101-103 | at each instrument, with any threshold up to 17.8, a spectrum can have more than MAXGPUHITS |
| Labels.SpectrumFromLabel | src/s6GPU.cu:657-674 | polarisation and coarse channel tell the spectrum |
| Labels.LabelFromSpectrum | src/s6GPU.cu:657-674 | and every pair of them is the label of a spectrum |
| Labels.HitIndexFromSite | src/s6GPU.cu:816-826 | polarisation, coarse and fine channel tell the hit index, and the indices of n channels get exactly those channels |
| Labels.SiteFromHitIndex | src/s6GPU.cu:816-826 | every such triple is the label of a hit index |
| Labels.AoFftReads | src/s6_gpu_thread.cpp:52-65 | at Arecibo, time t of FFT batch k of a beam is packet t of that beam at the channel and polarisation spectrum k is labelled with |
| Labels.DibasFftReads | src/s6_gpu_thread.cpp:52-65 | at Green Bank, the time of spectrum i of packet m in batch k of a sub-spectrum is that packet and spectrum at the channel and polarisation spectrum k is labelled with |
| Labels.PowersInSlots | src/s6GPU.cu:632-637 | X and Y slots are polarisation 0 and 1 of their channel always at Green Bank, at Arecibo if and only if the channel is even and odd |
| Labels.TransposeMeans | src/s6GPU.cu:300-345 | transpose turns rows into columns |
| Labels.TransposeTwice | src/s6GPU.cu:335-345 | transposing by (m, n) and then (n, m) restores the array |
| LabelledWire.DibasLabelsTrue | src/s6_pktsock_thread.cpp:619-638 | in a block from the wire, the sample an FFT batch reads is the packet's own at the labelled channel and polarisation (Green Bank) |
| LabelledWire.AoLabelsTrue | src/s6_pktsock_thread.cpp:607-614 | the same at Arecibo |
| FakeData.ScatterInjective | src/s6_gen_fake_data.cpp:155-171 | every sample of every fake series has its own place in the block |
| FakeData.ScatterSurjective | src/s6_gen_fake_data.cpp:155-171 | every place has a sample |
| FakeData.ScatterMeetsFft | src/s6_gen_fake_data.cpp:164-165 | the places are those the FFT strides read |
| FakeData.ScatterMeetsLabels | src/s6_gen_fake_data.cpp:164-165 | hits in a fake series are labelled with its channel and polarisation always at Green Bank, at Arecibo if and only if the channel's parity is the polarisation |
| FakeData.GenFakeData | src/s6_gen_fake_data.cpp:137-175 | the nested loops leave each sample at its place and nothing else changed |
| FakeData.FakeBlock | src/s6_gen_fake_data.cpp:155-171 | so each place holds its series' sample |
| HitTables.SelectedExact | src/s6_etfits.cpp:874-891 | the rows of a table are those of exactly the hits of its input outside the DC bin, each once, in order |
| HitTables.TableMeans | src/s6_etfits.cpp:866-911 | the table of a beam or sub-spectrum and an input holds, in order, power, baseline, coarse and fine channel of exactly the hits of that polarisation (at FAST all) whose fine channel is not 0, with its number, their count and the block's losses |
| HitTables.HitInOneTable | src/s6_etfits.cpp:874-891 | a hit is written for exactly one input, or for none if it is in the DC bin or its polarisation has no input |
| HitTables.TableAt | src/s6_etfits.cpp:866-911 | table bors * N_POLS + input is that beam's or sub-spectrum's and input's |
| HitTables.HitsConserved | src/s6_etfits.cpp:866-911 | rows plus DC hits are all hits of the block if and only if every other hit's polarisation has an input |
| HitTables.GpuToFile | src/s6_etfits.cpp:866-911 | for hits found by the detector and two inputs they are |
| Etfits.PutTablesAdd | src/s6_etfits.cpp:813-819 | an integration's tables follow those in the file; the first of a file fills the template's table, all others are new |
| FileHistory.History | src/s6_etfits.cpp:158-216 | in every run the files on disk, open flag, row and integration counts are those told from the events: a file begins with the first block, after a change event and after a roll; blocks are written to the last file, which is open; every earlier file was closed once with all its rows reported |
| FileHistory.AfterExit | src/s6_output_thread.cpp:447-450 | after the final close every file ever opened has been closed exactly once with the sum of its NHITS |
| FileHistory.ChaptersHoldAll | src/s6_output_thread.cpp:298-360 | every block written is in exactly one file, in order |
| FileHistory.TablesInOrder | src/s6_etfits.cpp:798-911 | the tables of all files in turn are the tables of all blocks written, none missing, repeated or overwritten |
| FileHistory.FilesHold | src/s6_output_thread.cpp:337-360 | these blocks are, in order, exactly those read in test mode, or at Arecibo with a receiver or run_always, at Green Bank with run_always and WEBCNTRL, at FAST with run_always |
| FileHistory.NoFiles | src/s6_output_thread.cpp:337-360 | no file is made if and only if there is no such block; so none at Green Bank with WEBCNTRL 0 outside test mode |
| FileHistory.ChangeMeans | src/s6_output_thread.cpp:298-325 | outside test mode, files change if and only if receiver, run_always or number of channels differ from those of the last block outside test mode, or WEBCNTRL is 0 at Green Bank |
| FileHistory.FileNumbers | src/s6_etfits.cpp:45-61 | the file number goes up by one with each block written that filled its file |
| FileHistory.TableCount | src/s6_etfits.cpp:866-911 | a file of k integrations has k N_BORS N_POLS hit tables |
| FileHistory.DueMeans | src/s6_output_thread.cpp:300-325 | a block begins a file if and only if none was written, or the last one rolled the file over, or something changed since |
| OutputThread.EtfitsFile.CollectHits | src/s6_etfits.cpp:874-891 | the hit arrays hold the rows selected for the input |
| OutputThread.EtfitsFile.WriteHits | src/s6_etfits.cpp:839-925 | the file gains one table for each beam or sub-spectrum and input with exactly the hits taken for it; the result is the number of rows in them |
| OutputThread.EtfitsFile.WriteEtfits | src/s6_etfits.cpp:147-225 | the whole new state is that of the value model: close, new file and counts when a file is due, then the block's tables |
| OutputThread.Output.ProcessBlock | src/s6_output_thread.cpp:298-360 | the whole new state is that of the value model: a file change event closes the file and makes a new one due; the block is written when the observatory's rule says so |
| OutputThread.RunOutput | src/s6_output_thread.cpp:112-450 | the loop over all blocks and the final close leave the files that FileHistory.AfterExit describes |
| WireToFile.TablesOfBlock | src/s6_etfits.cpp:158-216 | the tables of a block written follow those of all blocks written before it, over all files |
| WireToFile.WireToDisk | src/s6_output_thread.cpp:112-450 | in any run of the three threads, after the final close: a block filled in a jittered stretch, read and to be written, has its tables right behind those of the blocks to be written before it, each with exactly the hits of its polarisation outside the first fine channel that were detected for its beam or sub-spectrum in data whose words are those of the stretch's packets |
| ChannelNumber.SignExtendedIs | src/s6_chan2if.cpp:69-77 | sign extension gives the representative of the fine channel between minus and plus half a coarse channel |
| ChannelNumber.SysFineRoundTrip | src/s6_chan2if.cpp:60-79 | the system-wide number fits 32 bits and tells instance, coarse and fine channel |

## Left out

- Sockets, packet rings, header parsing, status display, logging, voltage dumps and timing: input and output.
- `s6_net_thread.cpp` and `s6_net_null_thread.cpp`: older variants of the modelled `process_packet`.
- Packets of other than nominal size, signals and failing waits: the program logs or ends there.
- `MISSEDBM`/`MISSEDPK` status counters: display only; `block_packet_counter` is modelled, unbounded, and like `out_of_seq_cnt` without `int` overflow.
- Assembler.StartInv: takes the two waits for free blocks at start-up as over; all flags are free then.
- Pipeline.Fifo: says nothing of the `sid` field at Arecibo and Green Bank, which the GPU thread does not copy.
- Pipeline.NextInv: the GPU and output threads are events of a state machine over the shared rings, not classes, since what matters of them is the interleaving; output blocks start zeroed, and with no coarse channels spectroscopy is still one step of unspecified result.
- Pipeline.MissedArrive: at Arecibo the copied range is one counter longer than the array; only the counters in use are modelled.
- FFTs, CUDA, thrust internals, GPU memory and the semaphore: FFT output is an arbitrary sequence.
- Detector.Spectroscopy: the variant for Arecibo and Green Bank; FAST's differs in memory handling and in labels that are constant for a block.
- Floating-point rounding of powers, sums and means.
- Density.SpectrumFits: thresholds between 17.8 and 19.99 are not decided; the exact limit is that of the densest set of bins whose windows overlap little enough, for which no closed form was found.
- WireToFile.WireToDisk: Arecibo and Green Bank only, since FAST's spectroscopy is not modelled; the FFT output is any function of the block.
- Etfits.PutTablesAdd: primary and integration headers, coordinates, times and the coarse channel power tables are not modelled; all CFITSIO calls succeed.
- OutputThread.Output.ProcessBlock: Redis, idle flags and file names are left out; what they report is a parameter.
- ChannelNumber.SysFineRoundTrip: masks are remainders, and frequencies in MHz are left out.
- Astronomy, time and catalogue helpers, scripts and templates: formulas without state.
