# Verification of the GMO Coin trading bot

A Dafny model of the parts of the bot that carry state or arithmetic, with proofs of what they
promise over every input and every run. `dafny verify dfyconfig.toml` checks all of it.

| File | Part of the bot |
|---|---|
| `Bytes.dfy`, `WsFrame.dfy`, `WsStream.dfy` | WebSocket frame writer, exact-read loop, frame reader and message loop |
| `Errors.dfy`, `Retry.dfy`, `Streams.dfy`, `WsEvents.dfy` | Error normalisation, private retry, one-reconnect event streams, stream probe |
| `Sanitizer.dfy`, `AuditLog.dfy` | Secret masking and the rotating audit log |
| `Inequality.dfy`, `Backtest.dfy` | Backtest metrics |
| `IndicatorSeries.dfy`, `Strategy.dfy`, `Signals.dfy` | Indicators, trade decision, and the two composed |
| `Sizing.dfy`, `RiskGuards.dfy`, `OrderLifecycle.dfy`, `LiveRun.dfy` | Order size, risk guards, order lifecycle and one live run |
| `Daemon.dfy` | The live daemon's loop and its way out |
| `Wrappers.dfy`, `Seqs.dfy`, `Reals.dfy`, `ReasonCodes.dfy` | Shared types and facts |

## How the model is set up

- Floats are exact reals. An indicator row is a number, NaN before its window is full, or NA where
  `_rsi` replaces a zero average loss. A comparison with NaN fails; testing one with NA raises
  `TypeError`, so a decision is a result that may be that error.
- The network is an object that hands out its bytes in chunks of any size and then closes or times
  out. An exchange adapter is an object that answers each call by an arbitrary strategy over all
  calls so far, exceptions included. UTF-8 decoding, JSON parsing, event parsing and the byte length
  of a log line are arbitrary functions.
- Bytes are numbers below 256. The header's `& 0x0F`, `& 0x7F` and `& 0x80` are written as `% 0x10`,
  `% 0x80` and `>= 0x80`.
- A loop or object of the source is a method or class, proved against a function on values or
  against a declarative contract; what the source promises is then proved about that function.
- Where a function only computes, a lemma says what its result means in terms that do not go through
  it: raw bytes and bits, rows of a frame, closes, or the fields of configuration and snapshot.

## Results worth knowing

- A stream cut inside a frame never gives a partial message, and any chunking gives the same objects,
  the same pongs and the same final error (`WsStream.ReadStream`, `WsStream.OutcomeUnique`).
- From bytes to events: whatever arrives on two connections, in whatever chunks, the WebSocket event
  stream is the first connection's events and error and, exactly after a lost connection, the
  second's; it never ends without an error item (`WsEvents.TwoConnections`). A factory-fed stream is
  degraded only when the factory itself raises (`Streams.FactoryStreamStatus`).
- The retry loop does not follow the error's own `retryable` flag: 5xx answers are marked retryable
  and are not retried (`Retry.RetriedVersusRetryable`, `Retry.HttpStatusRetried`).
- Nothing rotates before the limit: the audit log is one file with the whole history exactly as long
  as every append finds no more bytes than the limit in force (`AuditLog.OneFileExactlyWhen`).
- The audit log holds the newest part of the history throughout a run exactly when no append rotates
  while a generation above the retention in force exists (`AuditLog.NewestKeptExactlyWhen`). One
  policy set before the first record is enough for that, and bounds files and disk use by that
  policy's own numbers, from below as well (`AuditLog.FixedPolicy`); lowering the retention later can leave a hole
  (`AuditLog.LoweredRetentionLeavesGap`). Order and freedom from duplicates survive any policy.
- The reported drawdown leaves the first close out: `[2, 1]` reports 0
  (`Backtest.FirstFallUncounted`). It covers the whole series exactly when some later fall is as far
  as the one from the first close to the lowest (`Backtest.FirstCloseMatters`).
- A decision raises exactly where the average loss is zero and the normalised gap is beyond 0.2
  either way, unless a cooldown comes first (`Signals.RaisesExactlyWhen`). Three rising closes do it
  (`Signals.RisingRaises`). With a fast window no longer than the slow one, monotone prices are never
  traded: rising ones hold or raise, and falling ones hold once the RSI window has two bars
  (`Signals.MonotoneHolds`).
- Without a cooldown, reflecting prices swaps buy and sell exactly where (1) the RSI window is not
  full, the gap is at most 0.2, or both RSI averages are zero or neither is, and (2) the volatility
  filter, if reached, says the same of both closes (`Signals.ChainReflected`). With an RSI window of
  two bars or more, (1) fails only on rows with a larger gap whose closes so far rose without a fall
  or fell without a rise (`Signals.SymmetricUnlessMonotone`); with one bar it fails elsewhere too
  (`Signals.OneBarRsi`).
- Rounding the order size to eight decimals can take it over its limits, exactly when the quantity
  step is not a multiple of 1e-8 (`Sizing.NoOvershootExactlyOnGrid`).
- An order stopped out at its decision's stop loses at most the risk budget, but for the rounding of
  its size (`LiveRun.StopLossWithinBudget`).
- The idempotency skip of a live run is dead code, since the set of sent ids is new in every run
  (`LiveRun.RunOrderSection`), and its progress file names a last error even when all went well
  (`LiveRun.LastErrorNeverEmpty`).
- The daemon counts failures over its whole life: successes in between never reset the count
  (`Daemon.ExitExactlyWhen`). After an exception that escapes the loop, the last
  record reports a count of 0 whatever failed before (`Daemon.RunMain`).

## Model

| member | source | states |
|---|---|---|
| `Bytes.FromToBytes` | src/bitcoin_bot/exchange/gmo_adapter.py:283-288 | A length written big-endian in a field it fits is read back as the same number |
| `Bytes.ToFromBytes` | src/bitcoin_bot/exchange/gmo_adapter.py:309-312 | A length field read big-endian is the only field that writes that number |
| `Bytes.MaskTwice` | src/bitcoin_bot/exchange/gmo_adapter.py:290-291 | Unmasking with the same four-byte key undoes masking, for any payload |
| `Bytes.MaskTurnsOver` | src/bitcoin_bot/exchange/gmo_adapter.py:290-291 | Bit by bit: masked byte i is payload byte i with exactly the bits turned over that are set in key byte i modulo 4 |
| `WsFrame.ParseWire` | src/bitcoin_bot/exchange/gmo_adapter.py:303-319 | Any frame in the layout of section 5.2 of RFC 6455 (any opcode, length form, masked or not) is read back whole, whatever follows it |
| `WsFrame.WireParse` | src/bitcoin_bot/exchange/gmo_adapter.py:303-319 | Whatever is read as a frame is a well-formed frame, and its wire form is the head of the input |
| `WsFrame.CutFrameIsIncomplete` | src/bitcoin_bot/exchange/gmo_adapter.py:294-301 | No proper prefix of a frame is read as a frame |
| `WsFrame.ParseMeans` | src/bitcoin_bot/exchange/gmo_adapter.py:303-319 | What is parsed, over the raw bytes: opcode, length in network order by its code, key position, and the payload with the key's bits turned over |
| `WsFrame.EncodeTextRoundTrip` | src/bitcoin_bot/exchange/gmo_adapter.py:277-292 | The writer fails exactly from 2^64 bytes on; otherwise it emits a final masked text frame that is read back as the payload, ending where the frame ends |
| `WsFrame.EncodeTextBytes` | src/bitcoin_bot/exchange/gmo_adapter.py:277-292 | The bytes sent, one by one: first byte, mask bit and length code, length in network order, key, and each payload bit turned over exactly by its key bit |
| `WsFrame.EncodeTextShortest` | src/bitcoin_bot/exchange/gmo_adapter.py:283-288 | No masked frame with this payload is shorter, and the length form is the only shortest one |
| `WsFrame.LongLengthTopBit` | src/bitcoin_bot/exchange/gmo_adapter.py:287-288 | The top bit that RFC 6455 wants zero is zero exactly for payloads under 2^63 bytes |
| `WsStream.Socket.RecvExact` | src/bitcoin_bot/exchange/gmo_adapter.py:294-301 | The next n bytes whatever the chunks, or the connection's error when fewer come |
| `WsStream.Socket.RecvFrame` | src/bitcoin_bot/exchange/gmo_adapter.py:303-319 | Opcode and unmasked payload of the next frame, as its raw bytes say, with exactly that frame consumed |
| `WsStream.Socket.RecvText` | src/bitcoin_bot/exchange/gmo_adapter.py:303-330 | One frame consumed; its text, an empty string, a pong, or an error, by opcode |
| `WsStream.PongFrame` | src/bitcoin_bot/exchange/gmo_adapter.py:322-325 | The answer to a ping is a final, unmasked pong frame without payload |
| `WsStream.StopByFirstByte` | src/bitcoin_bot/exchange/gmo_adapter.py:320-330 | Which low half of a frame's first byte ends the stream, with which error |
| `WsStream.FramesSplit` | src/bitcoin_bot/exchange/gmo_adapter.py:381-387 | Every byte stream is a sequence of frames followed by less than a frame |
| `WsStream.FramesOfWire` | src/bitcoin_bot/exchange/gmo_adapter.py:381-387 | The frames read from any sequence of frames sent are those frames: the loop stays aligned |
| `WsStream.EncodeAllRoundTrip` | src/bitcoin_bot/exchange/gmo_adapter.py:277-330 | Any number of texts written one after the other is read back as that sequence |
| `WsStream.NextObjects` | src/bitcoin_bot/exchange/gmo_adapter.py:381-387 | One turn of the message loop takes one frame and passes on its object, if it has one, or ends with that frame's error |
| `WsStream.ReadTurn` | src/bitcoin_bot/exchange/gmo_adapter.py:381-387 | A turn of the loop ends the read with its outcome, or leaves one frame more read and its object passed on |
| `WsStream.ReadStream` | src/bitcoin_bot/exchange/gmo_adapter.py:360-387 | The objects passed on, the pongs sent and the final error are those of the frames before the first one that ends the stream |
| `WsStream.OutcomeUnique` | src/bitcoin_bot/exchange/gmo_adapter.py:294-387 | That outcome is a function of the bytes, the sends that succeed and how the connection ends |
| `WsStream.OutcomeExists` | src/bitcoin_bot/exchange/gmo_adapter.py:294-387 | Any bytes at all have one |
| `Errors.CategoriesByCode` | src/bitcoin_bot/exchange/gmo_adapter.py:475-529 | Which source codes, in any letter case, become which category, both ways |
| `Errors.HttpCategories` | src/bitcoin_bot/exchange/gmo_adapter.py:78-85 | Which HTTP statuses become which category, both ways |
| `Retry.RequestWithRetry` | src/bitcoin_bot/exchange/gmo_adapter.py:155-189 | The first response that is not retried or the last one allowed; fewest requests; the total wait; the final fall-through is unreachable |
| `Retry.RetryDetermined` | src/bitcoin_bot/exchange/gmo_adapter.py:166-184 | The stopping rule leaves one number of requests |
| `Retry.WaitsDouble` | src/bitcoin_bot/exchange/gmo_adapter.py:181-184 | No wait for one request, the base for two, and each further request waits twice as long as the one before |
| `Retry.RetriedVersusRetryable` | src/bitcoin_bot/exchange/gmo_adapter.py:177-178 | Retried means retryable and not of the exchange category |
| `Retry.HttpStatusRetried` | src/bitcoin_bot/exchange/gmo_adapter.py:78-85 | Among HTTP statuses only 429 is retried, although 5xx is marked retryable |
| `Streams.DrainSource` | src/bitcoin_bot/exchange/gmo_adapter.py:214-215 | The inner loop yields what the recursive definition of draining says |
| `Streams.DrainPrefix` | src/bitcoin_bot/exchange/gmo_adapter.py:213-230 | A drained source gives the longest prefix of payloads the parser takes, then its own end or the parser's failure |
| `Streams.HandlerCategories` | src/bitcoin_bot/exchange/gmo_adapter.py:217-229 | Category and retryable flag of each exception class, for both handlers |
| `Streams.IterWithReconnect` | src/bitcoin_bot/exchange/gmo_adapter.py:201-230 | First source, its error, and after a network error a second source and its error; a factory exception escapes |
| `Streams.IterWsStream` | src/bitcoin_bot/exchange/gmo_adapter.py:394-444 | The same for sockets, with permission failures terminal; without credentials one auth error and no connection |
| `Streams.StreamErrors` | src/bitcoin_bot/exchange/gmo_adapter.py:210-230 | At most two sources and as many errors; a second source follows exactly a network error |
| `Streams.TerminalErrorIsLast` | src/bitcoin_bot/exchange/gmo_adapter.py:217-230 | Nothing follows an error that is not a network error |
| `Streams.ProbeStatus` | src/bitcoin_bot/pipeline/live_runner.py:200-219 | The probe is the worse of the two streams' statuses, the second looked at only if needed |
| `Streams.FactoryStreamStatus` | src/bitcoin_bot/pipeline/live_runner.py:207-219 | A factory-fed stream is degraded exactly when its factory raises, reconnecting exactly when its first attempt fails before an event |
| `Streams.SocketStreamStatus` | src/bitcoin_bot/pipeline/live_runner.py:207-219 | A socket-fed stream is degraded exactly on a permission failure or missing credentials |
| `WsEvents.TwoConnections` | src/bitcoin_bot/exchange/gmo_adapter.py:360-444 | From the bytes of any two connections and any parser to the items of the stream: the events the parser takes from the first connection's objects, one error, and, exactly if that is a lost connection or a failed send, the same of the second; if the parser takes all, only bad JSON ends it early |
| `WsEvents.SourceOfRead` | src/bitcoin_bot/exchange/gmo_adapter.py:360-444 | Any read of the same bytes, in any chunks, gives the stream the same source |
| `Sanitizer.SanitizeMasks` | src/bitcoin_bot/utils/logging.py:42-54 | After sanitizing, every secret key at any depth maps to the mask |
| `Sanitizer.SecretKeys` | src/bitcoin_bot/utils/logging.py:32-47 | A key is secret exactly when one of the six words stands somewhere in it, letter by letter in any case |
| `Sanitizer.EntrySanitized` | src/bitcoin_bot/utils/logging.py:42-51 | Such a key maps to `***`, any other to its sanitized value |
| `Sanitizer.SanitizeFixpoints` | src/bitcoin_bot/utils/logging.py:42-54 | A value is unchanged exactly when it shows no secret |
| `Sanitizer.SanitizeIdempotent` | src/bitcoin_bot/utils/logging.py:42-54 | Sanitizing twice is sanitizing once |
| `Sanitizer.SanitizeAtPath` | src/bitcoin_bot/utils/logging.py:42-54 | Every path: unchanged leaf without a secret key, the mask at one, nothing below one, nothing new |
| `AuditLog.Log.SetPolicy` | src/bitcoin_bot/utils/logging.py:26-29 | Any setting is clamped to a valid policy; no file changes |
| `AuditLog.Log.Rename` | src/bitcoin_bot/utils/logging.py:69-73 | A rename moves one file; it is only called where the target does not exist |
| `AuditLog.Log.RotateIfNeeded` | src/bitcoin_bot/utils/logging.py:57-73 | The descending loop is one simultaneous shift of all generations up to the retention; nothing happens up to the limit |
| `AuditLog.Log.Append` | src/bitcoin_bot/utils/logging.py:76-89 | The sanitized record goes to the end of the active file after any rotation due |
| `AuditLog.HalfwayStep` | src/bitcoin_bot/utils/logging.py:63-70 | Where each file stands after each turn of the loop |
| `AuditLog.ShiftedContiguous` | src/bitcoin_bot/utils/logging.py:63-73 | A rotation keeps the generations contiguous from 1 |
| `AuditLog.ShiftedLines` | src/bitcoin_bot/utils/logging.py:63-73 | A rotation takes out the lines of generation `retention` and moves no other line |
| `AuditLog.AppendedLines` | src/bitcoin_bot/utils/logging.py:76-89 | An append adds its record at the end of all lines on disk and loses only what the rotation drops |
| `AuditLog.RunContiguous` | src/bitcoin_bot/utils/logging.py:57-89 | In every reachable state the files are generations 0 to n - 1 |
| `AuditLog.RunKeepsOrder` | src/bitcoin_bot/utils/logging.py:57-89 | Under any policies the lines on disk are a subsequence of all records ever appended |
| `AuditLog.OneFileExactlyWhen` | src/bitcoin_bot/utils/logging.py:57-62 | The log is its active file with the whole history exactly as long as every append finds no more bytes than the limit in force |
| `AuditLog.RunKeepsEnough` | src/bitcoin_bot/utils/logging.py:57-73 | Each generation from 1 up is larger than the smallest limit an append found, and nothing is lost before there are more generations than the smallest retention |
| `AuditLog.SuffixKeptWhen` | src/bitcoin_bot/utils/logging.py:63-73 | One append keeps the newest part of the history on disk exactly when it does not rotate while a generation above the retention exists |
| `AuditLog.RunKeepsSuffix` | src/bitcoin_bot/utils/logging.py:57-89 | If no append of a run does that, the disk holds the newest part of the history after every operation |
| `AuditLog.NewestKeptExactlyWhen` | src/bitcoin_bot/utils/logging.py:57-89 | Where no record is appended twice, that condition is exact for the whole run |
| `AuditLog.NeverLoweredNeverStrands` | src/bitcoin_bot/utils/logging.py:26-89 | A run that never lowers the retention after its first record meets the condition, with at most retention + 1 files |
| `AuditLog.LoweredRetentionLeavesGap` | src/bitcoin_bot/utils/logging.py:26-29 | A run that lowers the retention and keeps the first, third and fourth record |
| `AuditLog.NoFileEmpty` | src/bitcoin_bot/utils/logging.py:57-89 | No file on disk is ever empty |
| `AuditLog.RunSizes` | src/bitcoin_bot/utils/logging.py:26-73 | In every reachable state each file is within the limit but for its last line, and there are at most retention + 1, for the largest limit and retention an append found in force |
| `AuditLog.RunDiskUse` | src/bitcoin_bot/utils/logging.py:26-89 | Total disk use is then at most (retention + 1) * (limit + longest line appended) |
| `AuditLog.FixedPolicy` | scripts/run_live.py:242-245 | After one setting and any appends: newest part kept throughout, file count, file sizes and disk use, all by that setting's own clamped numbers; and either nothing is lost or `retention` old files, each above the limit, are there |
| `AuditLog.RunMasked` | src/bitcoin_bot/utils/logging.py:76-89 | No line on disk in any reachable state shows a value under a secret key |
| `Inequality.ProductAtMostOne` | src/bitcoin_bot/pipeline/backtest_runner.py:40-49 | Positive growth factors with mean at most one have product at most one, and less unless all are one |
| `Backtest.EquityTelescopes` | src/bitcoin_bot/pipeline/backtest_runner.py:41 | The equity curve is the closes from the second on over the first |
| `Backtest.MaxDrawdownIsWorstFall` | src/bitcoin_bot/pipeline/backtest_runner.py:41-43 | The one-pass drawdown is the worst fall between two closes from the second on, and lies in [0, 1) |
| `Backtest.FirstFallUncounted` | src/bitcoin_bot/pipeline/backtest_runner.py:41-43 | A series that halves at once reports no drawdown |
| `Backtest.FirstCloseMatters` | src/bitcoin_bot/pipeline/backtest_runner.py:41-43 | The reported drawdown covers the whole series exactly when some pair of closes from the second on falls as far as the first close does to the lowest |
| `Backtest.ReturnSign` | src/bitcoin_bot/pipeline/backtest_runner.py:45-47 | A period counts as gain or loss exactly as its close rises or falls |
| `Backtest.GainsAndLosses` | src/bitcoin_bot/pipeline/backtest_runner.py:45-53 | Gross profit and loss split the sum of returns, and trades are the periods that moved |
| `Backtest.ReturnImpliesProfit` | src/bitcoin_bot/pipeline/backtest_runner.py:40-49 | Trading that does not end below its start has gross profit above gross loss |
| `Backtest.ReturnImpliesProfitFactor` | src/bitcoin_bot/pipeline/backtest_runner.py:40-60 | Then the reported profit factor is above 1 whenever it is a quotient |
| `Backtest.MetricsScaleFree` | src/bitcoin_bot/pipeline/backtest_runner.py:30-61 | All metrics are unchanged when every close is multiplied by the same positive number |
| `Backtest.ClampsInactive` | src/bitcoin_bot/pipeline/backtest_runner.py:55-61 | The clamps on the reported metrics change nothing |
| `Backtest.MetricsOfCloses` | src/bitcoin_bot/pipeline/backtest_runner.py:30-61 | The reported numbers in terms of the closes: return times first close, product of growth factors, rising and moving periods counted, profit factor times loss, a loss of at most 1e-12 apart |
| `IndicatorSeries.GenerateIndicators` | src/bitcoin_bot/indicators/generator.py:26-86 | Refused exactly on a column clash; otherwise every new column is what its rows say and no other column changes |
| `IndicatorSeries.EmaIsEma` | src/bitcoin_bot/indicators/generator.py:55-72 | (span + 1) times an EMA row is (span - 1) times the row before plus twice the close, from the first close on |
| `IndicatorSeries.AtrIsAtr` | src/bitcoin_bot/indicators/generator.py:18-23 | period times an ATR row is (period - 1) times the row before plus the largest of the three ranges |
| `IndicatorSeries.RsiIsRsi` | src/bitcoin_bot/indicators/generator.py:8-15 | RSI times the sum of both averages is 100 times the average rise, NA without an average fall, NaN before the window is full |
| `IndicatorSeries.SlopeIsSlope` | src/bitcoin_bot/indicators/generator.py:76-79 | The slope times the ATR is the EMA's step, or 0 where there is nothing to divide |
| `IndicatorSeries.GapIsGap` | src/bitcoin_bot/indicators/generator.py:81-84 | The gap times the close is the distance of the EMAs, or 0 where there is nothing to divide |
| `IndicatorSeries.EwmZero` | src/bitcoin_bot/indicators/generator.py:12-13 | A zero average of non-negative rows means zero rows, unless only the last row counts |
| `IndicatorSeries.EwmOfRising` | src/bitcoin_bot/indicators/generator.py:55-72 | On rows that never fall an EMA lies between the first row and the last |
| `IndicatorSeries.FasterIsHigher` | src/bitcoin_bot/indicators/generator.py:55-72 | On such rows the faster EMA is not below the slower one |
| `Signals.EmaReflected` | src/bitcoin_bot/indicators/generator.py:55-72 | Reflecting prices reflects every EMA |
| `Signals.AtrReflected` | src/bitcoin_bot/indicators/generator.py:18-23 | Reflecting prices keeps the ATR |
| `Signals.SlopeReflected` | src/bitcoin_bot/indicators/generator.py:76-79 | Reflecting prices negates the normalised slope |
| `Signals.RsiRange` | src/bitcoin_bot/indicators/generator.py:14-15 | A defined RSI lies in [0, 100) |
| `Signals.RsiReflected` | src/bitcoin_bot/indicators/generator.py:8-15 | Reflecting prices maps RSI to 100 - RSI; one of the readings is NA exactly where an average is zero |
| `Signals.MonotoneAverages` | src/bitcoin_bot/indicators/generator.py:9-13 | With a window of two or more an average is zero exactly on monotone closes |
| `Signals.RisingGap` | src/bitcoin_bot/indicators/generator.py:55-84 | On closes that never fall the EMAs lie between first and latest close, the fast one is not below the slow one, and the normalised gap is not negative |
| `Signals.RaisesExactlyWhen` | src/bitcoin_bot/strategy/core.py:104-125 | The decision on an indicator row raises exactly on a zero average loss behind a gap beyond 0.2, with no cooldown; in terms of the closes, where the RSI window has two bars and the fast window is no longer than the slow one |
| `Signals.RisingRaises` | src/bitcoin_bot/strategy/core.py:116 | Three rising closes raise, the reflected ones hold |
| `Signals.MonotoneHolds` | src/bitcoin_bot/strategy/core.py:112-125 | On monotone closes nothing is traded, and when a rising row raises |
| `Signals.SetupsMirrored` | src/bitcoin_bot/strategy/core.py:112-125 | Reflected bars give the opposite setup exactly where the RSI window is not full, the gap is at most 0.2, or both averages are zero or neither is |
| `Signals.SymmetricUnlessMonotone` | src/bitcoin_bot/strategy/core.py:112-125 | With an RSI window of two bars or more, that condition in terms of the closes |
| `Signals.ChainReflected` | src/bitcoin_bot/strategy/core.py:98-160 | Indicators and decision composed: reflected bars give the opposite decision, equal confidence and reflected levels exactly when a cooldown decides, or the setup condition holds and the volatility filter, if reached, agrees on both closes |
| `Signals.OneBarRsi` | src/bitcoin_bot/strategy/core.py:116-125 | With a one-bar RSI window the symmetry fails far from monotone prices: one side raises, the other buys |
| `Strategy.TradesExactlyWhen` | src/bitcoin_bot/strategy/core.py:98-160 | The exact conditions of buy, sell and exception, and a confidence the decision type accepts |
| `Strategy.TradesInPrices` | src/bitcoin_bot/strategy/core.py:98-160 | The same conditions as products of the row's own numbers, without quotients |
| `Strategy.DecisionConfidence` | src/bitcoin_bot/strategy/core.py:112-125 | The confidence says how many ATRs the EMAs are apart, up to one, and is 0 without a setup |
| `Strategy.DecisionReasons` | src/bitcoin_bot/strategy/core.py:104-160 | The reason codes name the setup and the first filter that stopped it |
| `Strategy.RiskReflected` | src/bitcoin_bot/strategy/core.py:75-95 | Stop and target of the opposite action on reflected prices are the reflected ones, and trade places for a hold |
| `Strategy.DecideReflected` | src/bitcoin_bot/strategy/core.py:98-160 | For any opposite readings the whole decision is opposite exactly when the momentum test is and the volatility filter, if reached, agrees on both closes |
| `Sizing.RoundUnique` | src/bitcoin_bot/pipeline/live_runner.py:93 | Rounding is to the nearest integer, to the even one on a tie, and no other integer qualifies |
| `Sizing.QtyShape` | src/bitcoin_bot/pipeline/live_runner.py:90-95 | The size is zero or at least the minimum, and flooring stays within one step |
| `Sizing.SizeIsSize` | src/bitcoin_bot/pipeline/live_runner.py:72-95 | The size declared: the most within both limits, down to whole steps, to the nearest unit of the eighth decimal, and zero only below the minimum |
| `Sizing.SizeUnique` | src/bitcoin_bot/pipeline/live_runner.py:72-95 | That declaration leaves one size |
| `Sizing.QtyWithinLimits` | src/bitcoin_bot/pipeline/live_runner.py:82-95 | Position cap and risk budget are exceeded by at most 0.5e-8 times close and ATR |
| `Sizing.NoOvershootExactlyOnGrid` | src/bitcoin_bot/pipeline/live_runner.py:91-93 | They are never exceeded, over all inputs, exactly when the step is a multiple of 1e-8 |
| `Sizing.QtyMonotone` | src/bitcoin_bot/pipeline/live_runner.py:82-95 | The size never shrinks when balance, risk fraction or position limit grow, or close, ATR or minimum fall |
| `RiskGuards.EvaluateRiskGuards` | src/bitcoin_bot/optimizer/gates.py:48-86 | Success exactly when nothing is exceeded, abort exactly on drawdown or trade loss; the codes in check order |
| `RiskGuards.VerdictUnique` | src/bitcoin_bot/optimizer/gates.py:48-86 | The exceeded conditions leave one verdict |
| `RiskGuards.CodesOfExceeded` | src/bitcoin_bot/optimizer/gates.py:75-86 | A code is reported exactly for each exceeded condition |
| `RiskGuards.CodesInFigures` | src/bitcoin_bot/optimizer/gates.py:14-39 | Each code exactly for its own figure above its own limit |
| `RiskGuards.NotSuccessHasCode` | src/bitcoin_bot/optimizer/gates.py:75-90 | A status other than success comes with a code |
| `OrderLifecycle.TrackOrderLifecycle` | src/bitcoin_bot/pipeline/live_runner.py:128-197 | Calls, audit events and result are those of the lifecycle function, against any adapter |
| `OrderLifecycle.LifecycleCalls` | src/bitcoin_bot/pipeline/live_runner.py:139-192 | At most one fetch, of the placed order, then at most one cancel, under auto-cancel |
| `OrderLifecycle.CancelExactlyWhen` | src/bitcoin_bot/pipeline/live_runner.py:160-174 | A cancel is sent exactly when the latest known status is active and auto-cancel is on |
| `OrderLifecycle.LifecycleResult` | src/bitcoin_bot/pipeline/live_runner.py:135-197 | One transition per call, from the placed status to the returned one, and at most one reason code, told by the trace |
| `LiveRun.ResolveAvailableBalance` | src/bitcoin_bot/pipeline/live_runner.py:45-69 | Override, first usable yen row, or default; never negative |
| `LiveRun.BalanceInRows` | src/bitcoin_bot/pipeline/live_runner.py:51-69 | The first yen row with an amount, available before total, or a million |
| `LiveRun.SentOrders.Register` | src/bitcoin_bot/pipeline/live_runner.py:222-226 | An id passes once |
| `LiveRun.PlaceAndTrack` | src/bitcoin_bot/pipeline/live_runner.py:389-444 | Attempt, placement, lifecycle and result in this order, cut where the adapter raises |
| `LiveRun.RunOrderSection` | src/bitcoin_bot/pipeline/live_runner.py:319-459 | Calls, audit events, status and reason codes of the order section; the idempotency skip is never taken |
| `LiveRun.RunLive` | src/bitcoin_bot/pipeline/live_runner.py:247-524 | Calls, audit trail, progress records, statuses and reason codes of a whole run, cut where the decision or an adapter call raises |
| `LiveRun.PlacedInFields` | src/bitcoin_bot/pipeline/live_runner.py:267-418 | An order is placed exactly when mode, switches, all six limits, momentum, thresholds, balance and declared size allow it, in the fields of configuration and snapshot; once, and before any other order call |
| `LiveRun.StatusInFields` | src/bitcoin_bot/pipeline/live_runner.py:319-461 | The order status and the trail name the first of those conditions that failed |
| `LiveRun.ResultInFields` | src/bitcoin_bot/pipeline/live_runner.py:267-492 | The result reports each risk code exactly for its own figure above its own configured limit, the status that goes with them, and the state of the streams |
| `LiveRun.OrderBracketed` | src/bitcoin_bot/pipeline/live_runner.py:389-444 | A placed order is bracketed in the trail by one attempt and one result with its client order id |
| `LiveRun.NoOrderHasReason` | src/bitcoin_bot/pipeline/live_runner.py:319-459 | A completed run that places nothing gives a stop reason or a decision to hold |
| `LiveRun.OrderIsSound` | src/bitcoin_bot/pipeline/live_runner.py:339-418 | What is placed is within its limits, at least the minimum, and on the side of the EMA gap |
| `LiveRun.StopLossWithinBudget` | src/bitcoin_bot/pipeline/live_runner.py:82-95 | Size, stop and budget together: what an order loses at its decision's stop is at most the risk budget, but for half a unit of the eighth decimal |
| `LiveRun.LastErrorNeverEmpty` | src/bitcoin_bot/pipeline/live_runner.py:465-492 | The last progress record of a completed run always names an error: the first stop reason, or the decision's own reason if nothing stopped it |
| `Daemon.RunOnce` | scripts/run_live.py:127-223 | One turn of the loop whose run escapes no handler: counters, gauge and records |
| `Daemon.RunDaemonLoop` | scripts/run_live.py:90-228 | Exit code and count, or the escaping exception; metrics and records of the runs executed |
| `Daemon.RunMain` | scripts/run_live.py:231-299 | Start-up failure, or the loop with the record written on the way out: by whether the daemon gives up, an exception escapes (count 0), or it is shut down |
| `Daemon.ExecutedUnique` | scripts/run_live.py:125-228 | The outcomes and the allowance fix how many runs are executed |
| `Daemon.ExitExactlyWhen` | scripts/run_live.py:185-224 | The daemon gives up exactly when more runs fail, before an exception escapes, than allowed, after one failure too many; and when an exception gets out instead |
| `Daemon.LastRecordsOnExit` | scripts/run_live.py:186-221 | Then the last two records are the reconnect attempt and the failure |
| `Daemon.GaugeMatchesRecords` | scripts/run_live.py:137-218 | The monitor gauge and the last record of the last run agree; only an active run before any failure leaves no record |
| `Daemon.FailuresRecorded` | scripts/run_live.py:186-202 | Every failure is recorded exactly once |
| `Daemon.CountsNeverFall` | scripts/run_live.py:141-223 | The recorded counts never fall |

## Left out

- HTTP, TLS, request signing, the WebSocket handshake and its first `recv(4096)`: foreign calls. Bytes of a frame that arrive in the same chunk as the handshake answer are discarded by the code and are outside the model.
- Conformance to RFC 6455 beyond framing: the code ignores FIN and reserved bits and answers a ping with an empty pong, and so does the model.
- A consumer that stops a stream early: streams are drained to their end.
- UTF-8 and JSON: any functions, so nothing is claimed about which texts are passed on beyond what they return.
- IEEE rounding, infinities, zero or negative closes, and the pandas loading and coercion of candles.
- Non-ASCII case mapping in `str.lower` and `str.upper`, and dictionary keys that are not strings.
- File-system errors in the audit log and in the progress file, and concurrent writers.
- Wall-clock time, sleeps of the daemon, signals and the health server: the stop event is the number of loop tests that find it unset.
- LiveRun.RunLive: does not model the heartbeat file, nor the time stamps of the progress records, because they carry no state.
- The order sizing details copied into audit payloads, and the `transition_logger` callback, which repeats the progress records.
- `normalize_reason_codes`: the codes are a closed type here, so there is nothing to filter.
- Paper mode, the optimizer's score and gate, configuration loading and the report writers: each is settled by reading one branch.
- Balances, tickers, positions and candles as the adapter parses them: field-by-field copies of foreign answers.
