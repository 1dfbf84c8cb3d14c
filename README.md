# Smart chair monitoring: a verified model of the vital-sign core

This project models the signal-handling core of the smart chair patient monitor
and proves properties about it in Dafny. The monitor is a desktop application
that receives samples from a chair fitted with BCG, PPG and temperature sensors.

- **From sensor to monitor.** The BLE backend reassembles 20-byte frames from
  Bluetooth notifications and forwards their 16-byte payloads over TCP. The
  monitor's TCP client decodes each payload into six raw values.
- **Per sample.** The monitor decides whether somebody is sitting in the chair.
  If so, it filters the red PPG channel into a heart rate and the BCG channel
  into a respiration rate, keeps SpO2 windows of the red and infrared
  channels, plots the filtered signals and records the sample.
- **Every 500 present samples** it commits the displayed heart rate (through a
  stabiliser that limits jumps), the respiration rate and the SpO2 value.
- **Alternative estimator and peak finder.** An IQR-filtering estimator with
  hysteresis, and a peak finder with a five-slot rate history, are modelled too.
- **Chart model.** The live plots' "chasing" write cursor, the axis
  adjustments, the CSV header lookup and the history time window are modelled.

The modules follow the program's structure:

| module (file) | models |
|---|---|
| `BleFrame` (ble_frame.dfy) | `process_buffer` and `notification_handler` of the BLE backend |
| `SensorClient` (sensor_decode.dfy) | the 16-byte read loop and field decoding of `TcpSensorClient.RunAsync` |
| `Monitoring` (monitor.dfy) | `MainViewModel.AddSample`, its commit cadence and `Clear` |
| `Signals`, `Filters`, `Ring` | the PPG and BCG filter chains and their running-sum ring buffers |
| `PeakDetector` | the two adaptive-threshold peak detectors and their interval rings |
| `HrConstraints` | `ApplyHrConstraints` |
| `SpO2` | `AccumulateSpO2Window` / `CommitSpO2FromWindow` |
| `Presence` | `CheckNoPerson`, `IsLowDeviation`, `PushBack` |
| `Alerts` | the display strings and alert predicates |
| `Hrrr`, `FindPeaks` | `HRRR.cs` and `FindPeak.cs` |
| `Chart` | the bookkeeping of `ChartModel.cs` |
| `Numeric`, `Wrappers` | Math.Round (to even), Math.Clamp, truncating division, sums; Option |

The code works by changing state. It is modelled as classes with `modifies`
clauses. The state of each class is also given as a value by a ghost function
(`State()`). Every method ensures that its new `State()` is a pure step function
of the old state and its inputs: `Signals.PpgStep`, `PeakDetector.Step`,
`Monitoring.Sample` and others. The monitor's live chart is a separate object
outside `Monitoring.Monitor.State()`. Each monitor method that touches the chart
states the chart's new fields in full: one `Chart.ChasingPlot.AddData` step
(the predicate `Monitoring.Plotted`), unchanged, or cleared. The properties are
proved as lemmas about the step functions.

The source's filter arithmetic is in double precision. Here it is exact `real`
arithmetic. `Math.Sqrt` is a parameter `sqrt` whose only known property is that
it returns the non-negative square root (`Numeric.SqrtOk`). Wall-clock readings
are passed in as `now`, in ticks of 100 ns.

## Model

Source paths are relative to the repository root. M is
`PatientMonitoring/ViewModels/MainViewModel.cs`, written out in each row.

| member | source | states |
|---|---|---|
| Alerts.DecimalRoundTrip | PatientMonitoring/ViewModels/MainViewModel.cs:82-84 | a displayed number, printed in invariant culture and read back, is the number |
| Alerts.IntToStringNotDashes | PatientMonitoring/ViewModels/MainViewModel.cs:82-84 | a printed number is never the "--" placeholder |
| Alerts.DisplaysDashes | PatientMonitoring/ViewModels/MainViewModel.cs:82-84 | HR and RR show "--" exactly when nobody is in the chair; SpO2 also while its value is 0 or less |
| Alerts.MessagesMatchAlerts | PatientMonitoring/ViewModels/MainViewModel.cs:94-99 | each message is non-empty exactly when its alert is active, and says "high" exactly when the value is above the range |
| Alerts.NoAlertsWhenEmpty | PatientMonitoring/ViewModels/MainViewModel.cs:94-99 | with nobody in the chair no alert is active and every message is empty |
| Alerts.CommittedSpo2NeverAlerts | PatientMonitoring/ViewModels/MainViewModel.cs:98 | a value of 0 or in 90..100 never activates the SpO2 alert |
| BleFrame.FrameAtIsValid | blebackend/blebackend.py:61-72 | a frame accepted by the parser has SOF 0x02, EOF 0x03 and byte 18 equal to the XOR of bytes 0..17 |
| BleFrame.Find | blebackend/blebackend.py:51-53 | the result is the index of the first 0x02, or -1 exactly when there is none |
| BleFrame.ParseAt | blebackend/blebackend.py:50-78 | the parse of the buffer from an offset leaves a rest inside the buffer, and every frame it takes lies before that rest |
| BleFrame.ParseCandidate | blebackend/blebackend.py:58-78 | the same bounds for the parse at a start byte |
| BleFrame.AtStartByte | blebackend/blebackend.py:51-56 | at a 0x02 nothing is deleted before the frame checks |
| BleFrame.GoodFrameStep | blebackend/blebackend.py:65-78 | a good frame is taken whole and the parse continues 20 bytes later |
| BleFrame.NoStartByte | blebackend/blebackend.py:51-53 | without a 0x02 the parse stops and keeps the buffer as it is |
| BleFrame.ParseLeavesNoFrame | blebackend/blebackend.py:50-59 | what is left is shorter than a frame or holds no 0x02 |
| BleFrame.CandidateLeavesNoFrame | blebackend/blebackend.py:58-63 | the same from a start byte |
| BleFrame.ParseFramesValid | blebackend/blebackend.py:50-78 | every frame taken passes all three checks, and frames are taken in order without overlap |
| BleFrame.CandidateFramesValid | blebackend/blebackend.py:61-75 | the same from a start byte: a bad EOF drops one byte, a bad checksum drops the 20 |
| BleFrame.BleBackend.constructor | blebackend/blebackend.py:23 | the buffer starts empty and nothing has been sent |
| BleFrame.BleBackend.ProcessBuffer | blebackend/blebackend.py:47-78 | the buffer becomes the rest of the parse, and exactly the payloads (bytes 2..17) of the frames taken are sent, in order |
| BleFrame.BleBackend.DropJunk | blebackend/blebackend.py:50-59 | bytes before the first 0x02 are deleted; with no 0x02 nothing changes |
| BleFrame.BleBackend.CheckFrame | blebackend/blebackend.py:61-78 | a bad EOF drops one byte, a bad checksum drops the frame, a good frame is sent and dropped |
| BleFrame.BleBackend.NotificationHandler | blebackend/blebackend.py:81-85 | the data is appended and the whole buffer parsed, as ProcessBuffer states |
| BleFrame.EncodeFrame | blebackend/blebackend.py:12-15 | the reference encoder builds a 20-byte frame around a 16-byte payload |
| BleFrame.EncodedFrameAt | blebackend/blebackend.py:61-72 | an encoded frame anywhere in a buffer passes the parser's checks and carries its payload |
| BleFrame.ParseEncoded | blebackend/blebackend.py:47-78 | parsing encoded frames yields exactly their payloads and consumes the whole buffer |
| BleFrame.SkipsJunk | blebackend/blebackend.py:51-56 | junk without 0x02 in front of encoded frames is skipped and the payloads still come out exactly |
| BleFrame.FindAfterAbsent | blebackend/blebackend.py:51 | find returns the first 0x02 after a prefix without one |
| SensorClient.LEToLE | PatientMonitoring/Services/TcpClientService.cs:60-65 | reading a value written little-endian gives the value back |
| SensorClient.ToLELE | PatientMonitoring/Services/TcpClientService.cs:60-65 | writing back a little-endian reading gives the bytes back |
| SensorClient.Signed16 | PatientMonitoring/Services/TcpClientService.cs:60-61 | a 16-bit pattern read as a short lies in -32768..32767 and wraps above 32767 |
| SensorClient.Unsigned16 | PatientMonitoring/Services/TcpClientService.cs:60-61 | the inverse of Signed16 |
| SensorClient.Decode | PatientMonitoring/Services/TcpClientService.cs:60-65 | every decoded field lies within its C# type: v1 and v2 are shorts, v3 and v4 unsigned 32-bit, v5 and v6 unsigned 16-bit |
| SensorClient.DecodeEncode | PatientMonitoring/Services/TcpClientService.cs:60-65 | decoding an encoded payload gives the payload |
| SensorClient.EncodeDecode | PatientMonitoring/Services/TcpClientService.cs:60-65 | encoding a decoded block gives the block: no byte is ignored |
| SensorClient.FieldRoundTrip | PatientMonitoring/Services/TcpClientService.cs:60-61 | a signed 16-bit field round-trips through its bytes |
| SensorClient.DecodeBlocks | PatientMonitoring/Services/TcpClientService.cs:49-67 | one payload per whole 16-byte block |
| SensorClient.DecodeBlocksEncodeAll | PatientMonitoring/Services/TcpClientService.cs:49-67 | a stream of encoded payloads decodes to exactly those payloads |
| SensorClient.Socket.Read | PatientMonitoring/Services/TcpClientService.cs:54-56 | a read copies at most the requested number of bytes at the offset, and returns 0 only when the stream has ended |
| SensorClient.ReadBlock | PatientMonitoring/Services/TcpClientService.cs:51-58 | reads are accumulated until exactly 16 bytes are in the buffer; it fails only when the stream ends first |
| SensorClient.Stream | PatientMonitoring/Services/TcpClientService.cs:49-67 | the events fired are exactly one decoded payload per whole 16-byte block of the stream |
| Hrrr.Insert | PatientMonitoring/Models/HRRR.cs:74 | insertion keeps the sequence sorted and adds exactly the new element |
| Hrrr.SortSeq | PatientMonitoring/Models/HRRR.cs:74 | the sorted sequence is sorted and a permutation of the input |
| Hrrr.SortArray | PatientMonitoring/Models/HRRR.cs:74 | Array.Sort sorts the caller's array in place |
| Hrrr.RankIndex | PatientMonitoring/Models/HRRR.cs:87-88 | the index is the integer part of p/100 * (n-1) |
| Hrrr.Percentile | PatientMonitoring/Models/HRRR.cs:85-95 | the percentile lies between the two neighbouring elements, and is the element itself at an exact index |
| Hrrr.Quartiles5 | PatientMonitoring/Models/HRRR.cs:76-77 | for five values q1 and q3 are elements 1 and 3 |
| Hrrr.KeepCount | PatientMonitoring/Models/HRRR.cs:83 | the filter keeps every occurrence of a value within the fences and none outside |
| Hrrr.KeepMembers | PatientMonitoring/Models/HRRR.cs:83 | a value is kept exactly when it occurs and lies within the fences |
| Hrrr.KeepSorted | PatientMonitoring/Models/HRRR.cs:83 | the filter keeps the ascending order |
| Hrrr.IqrKeepsMiddle | PatientMonitoring/Models/HRRR.cs:76-83 | of five sorted values, elements 1, 2 and 3 survive, so the result is never empty, and it is sorted |
| Hrrr.RemoveOutliersUsingIQR | PatientMonitoring/Models/HRRR.cs:72-84 | the caller's array ends up sorted and the result is its values within the IQR fences |
| Hrrr.KeepWithinFences | PatientMonitoring/Models/HRRR.cs:76-83 | the result is the IQR filter of the sorted values |
| Hrrr.KeptWithin | PatientMonitoring/Models/HRRR.cs:72-84 | every kept value lies between the smallest and largest of the five |
| Hrrr.HrAverageWithin | PatientMonitoring/Models/HRRR.cs:24-30 | the truncating mean of the kept values lies between the smallest and largest value |
| Hrrr.BrAverageWithin | PatientMonitoring/Models/HRRR.cs:49-55 | the breathing mean, divided by the count plus one, lies between 0 and the largest value |
| Hrrr.Hysteresis | PatientMonitoring/Models/HRRR.cs:32-42 | the shown value follows the new one when it is within the band of the previous value, or outside the band of both previous values; otherwise it stays |
| Hrrr.RepeatShown | PatientMonitoring/Models/HRRR.cs:32-42 | a value equal to the previous one is always shown |
| Hrrr.Total | PatientMonitoring/Models/HRRR.cs:26-29 | the loop sums the kept values |
| Hrrr.HrMean | PatientMonitoring/Models/HRRR.cs:24-30 | the history is sorted in place and the result is the truncating mean of the kept values |
| Hrrr.BrMean | PatientMonitoring/Models/HRRR.cs:49-55 | the same, dividing by the count plus one |
| Hrrr.Estimator.constructor | PatientMonitoring/Models/HRRR.cs:10-21 | every value starts at 0 |
| Hrrr.Estimator.UpdateHR | PatientMonitoring/Models/HRRR.cs:22-46 | HRValue becomes the mean of the kept values; the shown value follows the ±4 hysteresis; previous2 takes previous1 and previous1 the new value; the breathing state is untouched |
| Hrrr.Estimator.ShowHr | PatientMonitoring/Models/HRRR.cs:31-45 | the hysteresis and history update for a new heart-rate average |
| Hrrr.Estimator.UpdateBR | PatientMonitoring/Models/HRRR.cs:47-71 | the same for breathing, with a ±2 band and division by the count plus one; the heart-rate state is untouched |
| Hrrr.Estimator.ShowBr | PatientMonitoring/Models/HRRR.cs:56-70 | the hysteresis and history update for a new breathing average |
| FindPeaks.GreedyShape | PatientMonitoring/Services/FindPeak.cs:21-34 | every selected index lies in 1..n-2 and is a strict local maximum above the mean; the indices increase and are at least minDistance apart |
| FindPeaks.GreedyExact | PatientMonitoring/Services/FindPeak.cs:24-34 | a candidate is selected exactly when it lies at least minDistance after the previous selected peak |
| FindPeaks.Average | PatientMonitoring/Services/FindPeak.cs:15-20 | the loop computes the mean of the data |
| FindPeaks.SelectPeaks | PatientMonitoring/Services/FindPeak.cs:21-34 | the loop selects exactly the greedy peak sequence |
| FindPeaks.IntervalBounds | PatientMonitoring/Services/FindPeak.cs:37 | with more than two peaks the integer mean spacing is at least max(1, minDistance) |
| FindPeaks.RateOf | PatientMonitoring/Services/FindPeak.cs:37 | the rate is 60 / (interval * 0.0256) truncated, that is 600000 / (256 * interval), within 0..2343 |
| FindPeaks.PeakRate | PatientMonitoring/Services/FindPeak.cs:35-37 | with more than two peaks the stored rate lies in 0..2343 |
| FindPeaks.PeakFinder.constructor | PatientMonitoring/Services/FindPeak.cs:8-12 | a history of five zeros, index 0, minDistance 100 |
| FindPeaks.PeakFinder.FindPeak | PatientMonitoring/Services/FindPeak.cs:13-42 | with more than two peaks one history slot is written and the index wraps from 5 to 0; otherwise nothing changes |
| Chart.Add | PatientMonitoring/Models/ChartModel.cs:447-471 | one chasing step keeps the sweep well formed: the count grows to the capacity and then stays |
| Chart.Run | PatientMonitoring/Models/ChartModel.cs:447-471 | any run of additions keeps the sweep well formed |
| Chart.RunLatest | PatientMonitoring/Models/ChartModel.cs:447-471 | after any run, every slot holds the latest value written to it, and the write index is the number of additions modulo the capacity |
| Chart.RunSlots | PatientMonitoring/Models/ChartModel.cs:447-471 | the same, as a closed form of each slot's value |
| Chart.EqualContains | PatientMonitoring/Models/ChartModel.cs:616-635 | a case-insensitive exact match is also a substring match |
| Chart.FindHeaderIndex | PatientMonitoring/Models/ChartModel.cs:616-635 | the lowest header equal to some candidate wins; only without one does the lowest containing header win; -1 exactly when nothing matches |
| Chart.EnsureMinRange | PatientMonitoring/Models/ChartModel.cs:757-763 | the minimum is kept and the range becomes at least the minimum range, widening only as far as needed |
| Chart.AdjustYMax | PatientMonitoring/Models/ChartModel.cs:765-788 | the maximum moves by delta unless that breaks the minimum range; a locked axis gets its absolute bounds set |
| Chart.AdjustYMin | PatientMonitoring/Models/ChartModel.cs:790-814 | the minimum moves by delta, and the maximum follows only to keep the range |
| Chart.AdjustYMaxUndo | PatientMonitoring/Models/ChartModel.cs:765-788 | lowering then raising the maximum by the same delta restores the axis |
| Chart.LowerMinKeepsMax | PatientMonitoring/Models/ChartModel.cs:790-814 | lowering the minimum never moves the maximum |
| Chart.TimeWindow | PatientMonitoring/Models/ChartModel.cs:299-317 | for 24 hours the window is midnight to midnight + 24 h; otherwise it ends one hour after the current hour's start and spans max(1, hours) hours |
| Chart.ChasingPlot.constructor | PatientMonitoring/Models/ChartModel.cs:36-44 | empty series, cursor shown, a one-hour time range |
| Chart.ChasingPlot.AddData | PatientMonitoring/Models/ChartModel.cs:447-471 | each series takes one chasing step with its own value, and the cursor markers move to the slot just written |
| Chart.ChasingPlot.AddPoints | PatientMonitoring/Models/ChartModel.cs:449-471 | the series part of AddData |
| Chart.ChasingPlot.Place | PatientMonitoring/Models/ChartModel.cs:449-460 | a point is appended while the sweep is filling and replaces the slot at the write index once it is full |
| Chart.ChasingPlot.Clear | PatientMonitoring/Models/ChartModel.cs:649-662 | all series and cursors are emptied and the write index and count are 0 |
| Chart.ChasingPlot.ChangeCapacity | PatientMonitoring/Models/ChartModel.cs:728-735 | a non-positive or unchanged capacity is ignored; otherwise the capacity is set and the plot cleared |
| Chart.ChasingPlot.SetTimeRangeHours | PatientMonitoring/Models/ChartModel.cs:737-741 | the range becomes the argument clamped to 0..24 and nothing else changes |
| Ring.Push | PatientMonitoring/ViewModels/MainViewModel.cs:788-790 | write, advance the index modulo the capacity and count up: the contents gain the value and drop the oldest when full |
| Ring.SumContentsI | PatientMonitoring/ViewModels/MainViewModel.cs:790-794 | summing slots 0..count-1 sums the intervals in the ring |
| Filters.PushSum | PatientMonitoring/ViewModels/MainViewModel.cs:718-725 | subtracting the outgoing slot and adding the new value keeps the running sum equal to the window's sum |
| Filters.PushStats | PatientMonitoring/ViewModels/MainViewModel.cs:727-735 | the same for the sum and the sum of squares |
| Filters.MovingAverage.Push | PatientMonitoring/ViewModels/MainViewModel.cs:718-725 | the window gains the value (dropping the oldest when full) and the result is its mean |
| Filters.MovingAverage.Clear | PatientMonitoring/ViewModels/MainViewModel.cs:568 | the window is empty again |
| Filters.StatWindow.Push | PatientMonitoring/ViewModels/MainViewModel.cs:727-735 | the window gains the value, and the running sums equal the sums over the window |
| Filters.StatWindow.Clear | PatientMonitoring/ViewModels/MainViewModel.cs:569 | the window is empty again |
| Signals.NormVariance | PatientMonitoring/ViewModels/MainViewModel.cs:737-738 | the z-score variance is at least 1e-9 |
| Signals.BaselineSettles | PatientMonitoring/ViewModels/MainViewModel.cs:703-712 | under a constant input the baseline's distance to it shrinks by 0.99 per sample |
| Signals.BaselineBetween | PatientMonitoring/ViewModels/MainViewModel.cs:703-712 | the first sample sets the baseline; later the baseline moves between its old value and the sample |
| Signals.HighPassRemovesDc | PatientMonitoring/ViewModels/MainViewModel.cs:714-716 | under a constant input the high-pass output decays geometrically |
| Signals.HighPassDecays | PatientMonitoring/ViewModels/MainViewModel.cs:714-716 | under a constant input a non-zero output strictly shrinks |
| Signals.MeanWithin | PatientMonitoring/ViewModels/MainViewModel.cs:725 | the smoothed value lies within the window's bounds |
| Signals.ZScoreSign | PatientMonitoring/ViewModels/MainViewModel.cs:737-740 | the z-score is positive exactly above the mean and negative exactly below it |
| Signals.PpgStepFacts | PatientMonitoring/ViewModels/MainViewModel.cs:697-747 | one PPG step: windows within their sizes, the sample index advances, the plotted value is baseline plus smoothed value, and the sign of z compares the smoothed value with the window mean |
| Signals.PpgChain.constructor | PatientMonitoring/ViewModels/MainViewModel.cs:155-187 | the chain starts in the initial state |
| Signals.PpgChain.Process | PatientMonitoring/ViewModels/MainViewModel.cs:697-747 | ProcessPpgAndGetNormalized is one PPG step |
| Signals.PpgChain.Filter | PatientMonitoring/ViewModels/MainViewModel.cs:699-725 | baseline, high-pass and moving average |
| Signals.PpgChain.Normalize | PatientMonitoring/ViewModels/MainViewModel.cs:727-740 | the z-score against the last 160 smoothed values |
| Signals.PpgChain.Clear | PatientMonitoring/ViewModels/MainViewModel.cs:567-573 | the chain is back in its initial state |
| Signals.BcgChain.constructor | PatientMonitoring/ViewModels/MainViewModel.cs:202-208 | the chain starts in the initial state |
| Signals.BcgChain.Process | PatientMonitoring/ViewModels/MainViewModel.cs:906-922 | ProcessBcgAndGetFiltered is one BCG step |
| Signals.BcgChain.Clear | PatientMonitoring/ViewModels/MainViewModel.cs:576-580 | the chain is back in its initial state |
| PeakDetector.AcceptKeepsInv | PatientMonitoring/ViewModels/MainViewModel.cs:785-800 | a plausible interval enters the ring, and the rate becomes the rounded rate of the mean interval, which lies in the band |
| PeakDetector.CommitKeepsInv | PatientMonitoring/ViewModels/MainViewModel.cs:772-805 | committing a peak keeps the detector's invariant |
| PeakDetector.StepKeepsInv | PatientMonitoring/ViewModels/MainViewModel.cs:749-807 | every sample keeps the invariant: ring sizes within capacity, all intervals plausible, rate 0 or within 40..200 (HR) or 6..40 (RR) |
| PeakDetector.PushPlausible | PatientMonitoring/ViewModels/MainViewModel.cs:788-790 | the ring holds only plausible intervals and never more than its capacity |
| PeakDetector.PlausibleBounds | PatientMonitoring/ViewModels/MainViewModel.cs:781-785 | an interval is stored exactly when it is positive and its instant rate lies in the band |
| PeakDetector.MeanPositive | PatientMonitoring/ViewModels/MainViewModel.cs:792-794 | the mean of a non-empty ring is positive |
| PeakDetector.MeanRateInBand | PatientMonitoring/ViewModels/MainViewModel.cs:792-799 | the rate of the ring's mean interval lies in the band, so the second band check never rejects |
| PeakDetector.PeaksOnlyOnCrossingDown | PatientMonitoring/ViewModels/MainViewModel.cs:770-805 | a peak is committed only on the downward crossing, at the candidate's index, at least minDistance after the last peak |
| PeakDetector.AboveTracksMaximum | PatientMonitoring/ViewModels/MainViewModel.cs:756-768 | above the threshold the candidate is the running maximum and nothing is committed |
| PeakDetector.FirstPeakOnlyArms | PatientMonitoring/ViewModels/MainViewModel.cs:776-785 | the first peak after start or Clear only sets the last peak index: its interval from int.MinValue/4 fails the band |
| PeakDetector.IntervalRing.Push | PatientMonitoring/ViewModels/MainViewModel.cs:788-790 | the ring gains the interval and drops the oldest when full |
| PeakDetector.IntervalRing.Mean | PatientMonitoring/ViewModels/MainViewModel.cs:792-794 | the loop computes the mean interval |
| PeakDetector.IntervalRing.Clear | PatientMonitoring/ViewModels/MainViewModel.cs:572 | the ring is empty again |
| PeakDetector.PeakRate.constructor | PatientMonitoring/ViewModels/MainViewModel.cs:170-188 | the detector starts in the initial state |
| PeakDetector.PeakRate.Update | PatientMonitoring/ViewModels/MainViewModel.cs:749-807 | UpdateHeartRateFromPpg (and UpdateRespRateFromBcg) is one detector step |
| PeakDetector.PeakRate.CommitPeak | PatientMonitoring/ViewModels/MainViewModel.cs:772-805 | the commit on the downward crossing |
| PeakDetector.PeakRate.AcceptInterval | PatientMonitoring/ViewModels/MainViewModel.cs:785-800 | storing a plausible interval and recomputing the rate |
| PeakDetector.PeakRate.Clear | PatientMonitoring/ViewModels/MainViewModel.cs:571-573 | the detector is back in its initial state |
| HrConstraints.OutOfBandIgnored | PatientMonitoring/ViewModels/MainViewModel.cs:813-814 | an out-of-range candidate keeps a displayed value, or is clamped into 40..200 when nothing is displayed; the pending jump is kept |
| HrConstraints.FirstReading | PatientMonitoring/ViewModels/MainViewModel.cs:817-821 | the first valid candidate is taken as it is and the pending jump dropped |
| HrConstraints.SmallChange | PatientMonitoring/ViewModels/MainViewModel.cs:823-831 | a change of at most 15 moves the value by min(change, 5) |
| HrConstraints.TowardBetween | PatientMonitoring/ViewModels/MainViewModel.cs:829-830 | a limited step lies between the old value and the candidate and has length min(distance, limit) |
| HrConstraints.NoOvershoot | PatientMonitoring/ViewModels/MainViewModel.cs:810-849 | the value never passes the candidate and never moves by more than 10 |
| HrConstraints.JumpHeld | PatientMonitoring/ViewModels/MainViewModel.cs:846-849 | an unconfirmed jump keeps the value and becomes the pending jump, stamped with now |
| HrConstraints.JumpConfirmed | PatientMonitoring/ViewModels/MainViewModel.cs:836-844 | a jump is first held and becomes pending; a second large-jump candidate within 5 bpm of it and at most 15 s later moves the value 10 bpm toward the second candidate and clears the pending jump |
| HrConstraints.JumpConfirmedExactly | PatientMonitoring/ViewModels/MainViewModel.cs:833-849 | for a jump of more than 15 bpm, the value moves 10 bpm and the pending jump is cleared exactly when a pending jump at most 15 s old lies within 5 bpm of the candidate; otherwise the value is held and the candidate, stamped with now, replaces the pending jump |
| HrConstraints.ConstrainInBand | PatientMonitoring/ViewModels/MainViewModel.cs:810-849 | a displayed value in 40..200 (or none) stays in 40..200 |
| SpO2.Saturation | PatientMonitoring/ViewModels/MainViewModel.cs:894-895 | 121 - 9 R clamped to 90..100 |
| SpO2.Target | PatientMonitoring/ViewModels/MainViewModel.cs:877-895 | the raw reading of a guarded window lies in 90..100 |
| SpO2.Initial | PatientMonitoring/ViewModels/MainViewModel.cs:105-107 | the initial reading is unset and so within the invariant: 0 or 90..100 |
| SpO2.CommitKeepsInv | PatientMonitoring/ViewModels/MainViewModel.cs:873-903 | the displayed value stays 0 or within 90..100 |
| SpO2.CommitSmooths | PatientMonitoring/ViewModels/MainViewModel.cs:888-902 | a reading changes only for a guarded window; the first is taken as it is, later ones close the distance to the target by the factor 0.8; the value is the rounded average |
| SpO2.ShortWindowKeeps | PatientMonitoring/ViewModels/MainViewModel.cs:875 | fewer than 53 samples leave the reading alone |
| SpO2.EqualChannelsReadFull | PatientMonitoring/ViewModels/MainViewModel.cs:877-902 | identical red and infrared windows read 100 % |
| Presence.ConstantIsFlat | PatientMonitoring/ViewModels/MainViewModel.cs:650-670 | a constant signal counts as flat |
| Presence.FlatIsVarianceBound | PatientMonitoring/ViewModels/MainViewModel.cs:650-670 | the tail of the data is flat exactly when its variance is at most the threshold squared, that is its standard deviation at most the threshold |
| Presence.PushBack | PatientMonitoring/ViewModels/MainViewModel.cs:420-429 | a new array of the same length holding the old values shifted by one and the new value last |
| Presence.IsLowDeviation | PatientMonitoring/ViewModels/MainViewModel.cs:650-670 | the loop decides exactly whether the tail of the data is flat |
| Presence.EmptyOnlyAfterDebounce | PatientMonitoring/ViewModels/MainViewModel.cs:624-648 | the chair is reported empty only after 50 samples and 2 s of continuous flatness; a non-flat window clears the timer and the flag at once |
| Presence.FlatPeriodKeepsStart | PatientMonitoring/ViewModels/MainViewModel.cs:637 | the flat period keeps the time it started |
| Monitoring.CommitKeepsDisplayed | PatientMonitoring/ViewModels/MainViewModel.cs:486-497 | a commit keeps HR unset or in 40..200, RR unset or in 6..40 and SpO2 unset or in 90..100 |
| Monitoring.CommitMovesHrGently | PatientMonitoring/ViewModels/MainViewModel.cs:490-491 | once a heart rate is shown a commit moves it toward the estimate by at most 10 |
| Monitoring.Spo2AlertNeverFires | PatientMonitoring/ViewModels/MainViewModel.cs:895-902 | a committed SpO2 value never activates the SpO2 alert |
| Monitoring.ToShort | PatientMonitoring/ViewModels/MainViewModel.cs:470 | the plotted BCG value is rounded and clamped to a short |
| Monitoring.ToUint | PatientMonitoring/ViewModels/MainViewModel.cs:471 | the plotted PPG value is rounded and clamped to an unsigned int |
| Monitoring.TemperatureClose | PatientMonitoring/ViewModels/MainViewModel.cs:481-482 | the shown temperature is within 0.05 of raw * 0.02 - 273.15 |
| Monitoring.InitialPipelineInv | PatientMonitoring/ViewModels/MainViewModel.cs:170-188 | the chains start within their invariant and without rates |
| Monitoring.MeasureKeepsInv | PatientMonitoring/ViewModels/MainViewModel.cs:458-472 | a measured sample keeps both rates in their bands and the SpO2 windows growing to 160, ending with the new red and infrared values |
| Monitoring.CadenceIsEvery500 | PatientMonitoring/ViewModels/MainViewModel.cs:477-502 | the two counters advance one phase modulo 500 per present sample, and the commit happens exactly at phase 499 |
| Monitoring.LowPpgTouchesNothing | PatientMonitoring/ViewModels/MainViewModel.cs:442-448 | both PPG channels below 20000: the chair is reported empty and the chains, displayed values, record, refresh count and temperatures stay; the count restarts if the flag was clear |
| Monitoring.AbsentTouchesNothing | PatientMonitoring/ViewModels/MainViewModel.cs:442-456 | whenever a sample leaves the chair reported empty nothing is filtered, recorded or committed |
| Monitoring.PresentMeasures | PatientMonitoring/ViewModels/MainViewModel.cs:458-502 | with somebody present the sample runs both chains, is recorded (2000 kept) and counted, and a commit happens on the cadence |
| Monitoring.ShownChangesOnlyOnCommit | PatientMonitoring/ViewModels/MainViewModel.cs:484-500 | the displayed values change only with somebody present and only on the 500th sample |
| Monitoring.SampleKeepsInv | PatientMonitoring/ViewModels/MainViewModel.cs:435-503 | every sample keeps the monitor's invariant |
| Monitoring.ClearedKeepsInv | PatientMonitoring/ViewModels/MainViewModel.cs:551-596 | Clear keeps the invariant and leaves both rates unset |
| Monitoring.Monitor.constructor | PatientMonitoring/ViewModels/MainViewModel.cs:234-284 | nobody in the chair, no values, empty chains, zero histories; a chart of the given capacity with empty series and cursors, write index and count 0, the cursor shown and a one-hour range |
| Monitoring.Monitor.AddSample | PatientMonitoring/ViewModels/MainViewModel.cs:435-503 | the new state is Sample of the old one; with somebody present the chart takes one AddData step with v1 and the two filtered values (series, cursor markers, capacity, cursor setting and time range all stated), otherwise it is untouched |
| Monitoring.Monitor.Shift | PatientMonitoring/ViewModels/MainViewModel.cs:437-440 | both histories take the sample and the sample count grows |
| Monitoring.Monitor.Flag | PatientMonitoring/ViewModels/MainViewModel.cs:443-448 | the PPG gate sets the no-person flag |
| Monitoring.Monitor.Attend | PatientMonitoring/ViewModels/MainViewModel.cs:449-456 | the flag is cleared and the presence check decides whether the sample is measured; the chart takes its AddData step only when it is |
| Monitoring.Monitor.CheckNoPerson | PatientMonitoring/ViewModels/MainViewModel.cs:624-648 | the presence check on the BCG history, resetting the count when the flag turns on |
| Monitoring.Monitor.Record | PatientMonitoring/ViewModels/MainViewModel.cs:458-502 | measure, record and count a present sample; the chart takes one AddData step |
| Monitoring.Monitor.Measure | PatientMonitoring/ViewModels/MainViewModel.cs:458-472 | both chains and detectors and the SpO2 windows take the sample; each chart series advances one chasing step, the shown cursors move to the slot just written, and the capacity, cursor setting and time range are kept |
| Monitoring.Monitor.Tick | PatientMonitoring/ViewModels/MainViewModel.cs:477-502 | the count of 100 advances; at 100 the refresh runs |
| Monitoring.Monitor.Refresh | PatientMonitoring/ViewModels/MainViewModel.cs:478-501 | the temperatures are refreshed and every fifth time the displayed values committed |
| Monitoring.Monitor.Commit | PatientMonitoring/ViewModels/MainViewModel.cs:486-497 | the displayed values as CommitVitals gives them, each within its range |
| Monitoring.Monitor.Clear | PatientMonitoring/ViewModels/MainViewModel.cs:551-596 | the chart's series and cursors and the record are emptied, with the chart's capacity, cursor setting and time range kept; the flat timer, the sample count and the no-person flag are reset; both chains start again and the pending jump is dropped; the SpO2 windows, displayed values, the counters of 100 and 5 and the BCG/PPG histories are kept |

## Left out

- The network and process plumbing is not modelled: sockets, connection retries, cancellation, status events, the asyncio TCP and control servers, BLE scanning and connection, and sending payloads to clients. The BLE backend's "send" appends to a sequence, and a socket is its remaining bytes plus chunk sizes.
- Also left out: user interface, timers, blinking, overlays, OxyPlot objects, invalidation flags, `LogVitals`, `EnsureLogFile` and `LoadHistory` (file I/O), and the Samples collection's change notifications.
- Doubles and floats are exact reals. Rounding errors, NaN and infinity are not modelled, so `IsLowDeviation`'s `float.IsFinite` check is not modelled. Neither is the float-to-short and float-to-uint narrowing of the raw values, which are ints within range. The `ResetAxes` call that `AdjustYMax` and `AdjustYMin` make on a NaN axis range is therefore not modelled either.
- `Math.Sqrt` is a parameter known only to be the non-negative square root. The high-pass coefficients (which use `Math.PI`) are parameters in `Monitoring.Config` and `Signals.PpgChain`/`BcgChain`.
- `DateTime.UtcNow` and `DateTime.Now` are one `now` parameter per sample, in ticks. Local midnight and hour start are parameters of `Chart.TimeWindow`.
- Monitoring.Monitor: the chains, detectors and SpO2 windows are held by value (`Pipeline`, with sequences for the windows), not as the in-place arrays of the source. The array versions are modelled and verified separately (`Signals.PpgChain`, `Signals.BcgChain`, `PeakDetector.PeakRate`, `Filters.StatWindow`) against the same step functions. Aliasing between them and the monitor is therefore not captured.
- Monitoring.Monitor: `OutputRuntime.counthr` is a static shared across instances in the source; here it is a field of the monitor.
- Monitoring.Monitor: the 32-bit overflow of `_totalSamples`, the sample indices and `count` is not modelled (integers are unbounded).
- Hrrr.Estimator: the static class is an object with the same fields. The static arrays that `UpdateHR` and `UpdateBR` read (`OutputRuntime.historyhr` and `FindPeaks.history`) are passed in as parameters. Neither method has a caller in the repository.
- FindPeaks.Average: the mean of empty data (NaN in the source) is 0, which no comparison then reaches.
- Chart.FindHeaderIndex: case-insensitive comparison upper-cases ASCII letters only.
- The property-change notifications of `NoPersonMeasuring` are modelled only for the count reset at line 369.
