# Verified model of the Conv2D CFU

A Dafny model of the convolution accelerator in this repository, from clock edges up to the
TFLite kernel, together with the small algorithms around it. `dafny verify dfyconfig.toml`
checks the whole project.

## The accelerator

`proj/accel/cfu.v` is an array of sixteen pipelined four-lane multiply-accumulate units with
eight accumulators each, a scratchpad holding a 6x6 tile, and a valid/ready bus.
`proj/accel/.../conv.h` drives it with a stream of small commands. The main result is
`Writeback.AcceleratedConvPerChannel`: over the *clocked* hardware, with any number of idle
cycles before a command and any delay before its response is taken, the driver writes exactly
the tensor that the seven reference loops of `proj/baseline/.../conv.h` write, for every
image, filter, bias, multiplier, shift, padding and rescaling function. The layers:

| file | content |
|---|---|
| `Words`, `Arith`, `Sums` | bytes, words, wrap-around; a little arithmetic; finite sums and their reorderings |
| `Mac`, `Cfu` | the Verilog modules as classes, one method per always-block, and the command-level meaning `Exec` |
| `Pipeline` | the three-step latency, the weight block, exactly what stale pipeline contents do |
| `Drain` | the drained pipeline as an invariant of whole runs; the power-on product register |
| `History` | the control registers, the scratchpad and one unit step as functions of the command history |
| `Protocol`, `Cpu` | clock runs refine command runs; one held response each; commands held too long; `cfu_op0` |
| `Conv` | the sum of the convolution and the reference loops |
| `Meaning` | that sum on the raw tensors: impulse response and additivity, which leave no other function; the output stage |
| `Tiles`, `Kernel`, `Writeback` | padding by value, packing, the sum reordering, the driver, the end-to-end theorem |
| `Range` | every value an accumulator takes, command by command; exactly which layers overflow it |
| `Failures` | concrete inputs that go wrong |

A second accelerator, `proj/example_renode`, is modelled the same way: `Handshake` is the generic wrapper of
`python/amaranth_cfu/cfu.py`, `Renode` puts the multiply-accumulate instruction and the fallback
instruction into it and proves that the whole clocked CFU carries out its commands one by one, and `Simd`
is the depth-12 kernel driving it.

The driver's assumptions are collected in `Kernel.Supported` and `Tiles.Accelerable`: batch 1, a 3x3 filter,
stride and dilation 1, input offset 128, output offset -128, output height and width
divisible by 4, output depth divisible by 8, and input depth divisible by 4; or, for the
single-channel branch, a 28x28 image with padding 1, which that branch has written in.
The tensors are compared for layers whose sums cannot overflow int32_t (`Conv.AccumulatorFits`), which includes
all layers within the limit of 2^16 products that the reference documents.

Findings, each with its exact condition:

- No clear ever assigns the product register `prod` (the comment at `proj/accel/cfu.v:44` says
  "all set to zero"). The first result after power-on is right if and only if `prod` started at
  zero (`Drain.StaleProductIff`); `Failures.FirstBlockWrong` is a power-up where it is wrong. Afterwards
  the driver keeps the pipeline drained for ever.
- State updates are gated on `cmd_valid` alone. A command held valid while the module is not
  ready acts on every cycle; that is harmless exactly under the guard `Repeatable`
  (`Protocol.HeldCommandIff`), and `Failures.EarlyPressWritesTwice` is a run of four cycles in which it is
  not. The refinement therefore assumes that the CPU raises `cmd_valid` only while `cmd_ready`.
- The single-channel branch scales by the first channel of each group of eight. It agrees with
  the reference under every rescaling function if and only if multiplier and shift are constant
  in each group (`Writeback.SingleChannelScaleIff`); `Writeback.TelltaleShows` gives a rescaling that tells, and
  `Failures.TwoScalesDiffer` a layer.
- Whether a 32-bit accumulator can overflow depends on the depth of the layer alone: an output whose taps all
  lie inside the image reads back its sum for every image and filter if and only if
  `9 * inD * 32640 <= 2^31` (`Range.ReadBackExactIff`). At depth 7312 the driver accepts a layer and reads
  back another value than its sum (`Range.DeepLayerOverflows`). The documented limit of 2^16 products keeps clear of this, although the
  comment in the reference bounds a product by 32512 where a filter byte of -128 makes it 32640.
- `fb_draw_line` reaches its far end if and only if the line is not steeper than the diagonal
  (`Line.FarEndIff`); the line from (0, 0) to (1, 2) stops short (`Line.SteepLineStopsShort`).
- The trap frame of the software division has no slot for x0 and a dead one for x2: as an operand x0 reads
  the interrupted program's stack, as a destination it overwrites it. The trap does what the instruction
  should, for all registers and stacks, if and only if the instruction names neither, up to the
  remainders in which the stray operand cannot matter (`Division.RightIff`, `Division.ZeroDividend`).

## The other cores

| file | content |
|---|---|
| `Reader` | the prefetching memory reader of `python/amaranth_cfu/util.py` |
| `Random` | the 64-bit generator: full period and equidistribution |
| `Murmur`, `Bits`, `MurmurBits` | MurmurHash3: every step a bijection, no collision from one changed chunk; the same hash described by relations between bits and bytes |
| `Line` | the line drawing of `common/src/fb_util.c` |
| `Division` | the software division trap path, and where it departs from the instruction set |
| `Lram` | the banked, striped RAM on its clocked bus against a flat one |
| `CycleCounter` | the untorn 64-bit cycle read |

## Reading the model

- Machine integers are mathematical integers with explicit wrap-around. In the reference
  kernel the accumulator has the bounded type `Int32`, so each addition carries a proof that it
  does not overflow.
- Verilog registers are class fields. Each always-block is a method; the blocks run in an order
  in which every one reads only registers no earlier one has written, as non-blocking
  assignment requires.
- The eight accumulators of a unit and the four operand bytes are grouped into one field each.
- `MultiplyByQuantizedMultiplier` is an arbitrary function shared by both kernels; `Offset` is
  the row-major formula; 32-bit loads are little-endian.
- Registers without an initial value power up holding anything; an index outside the sixteen
  outputs answers with an arbitrary word, `floating`.
- In `Murmur` a rotation's two disjoint halves are added instead of or-ed, and exclusive or is
  defined bit by bit.
- The nine filter words of a block are loaded before the first is sent; the source alternates.
- The two branches of the accelerated kernel share their three tile loops here; the source
  writes the same loops twice.

## Model

| member | source | states |
|---|---|---|
| `Mac.Unit.Clock` | proj/accel/cfu.v:41-108 | one edge of a unit clears all but `prod`, advances the pipeline into the selected accumulator, or holds |
| `Cfu.Accelerator.constructor` | proj/accel/cfu.v:174-178 | the scratchpad starts as 0x80 bytes, every other register as anything |
| `Cfu.Accelerator.ClockUnits` | proj/accel/cfu.v:304-320 | all sixteen units step with the shared controls and their own scratchpad word, nothing else moves |
| `Cfu.Accelerator.ClockScratchpad` | proj/accel/cfu.v:180-194 | two words written at the counter, which advances by two modulo 256; writes outside are dropped; func 4 rewinds |
| `Cfu.Accelerator.ClockCounter` | proj/accel/cfu.v:198-205 | the compute counter restarts, saturates at 12 or holds |
| `Cfu.Accelerator.DecodeTap` | proj/accel/cfu.v:209-236 | the units run only below 12 and the tap id is the table the counter selects |
| `Cfu.Accelerator.ClockAddresses` | proj/accel/cfu.v:278-299 | unit u reads six words per row from the tap: id + 6*(u/4) + u%4 |
| `Cfu.Accelerator.ClockHandshake` | proj/accel/cfu.v:240-276 | a response appears with the accepted command, stays until taken, and does not touch the array |
| `Cfu.Accelerator.ReadOut` | proj/accel/cfu.v:254-257 | func 2 answers with accumulator `in1 % 8` of unit `in0`, everything else with zero |
| `Cfu.EdgeIsTick` | proj/accel/cfu.v:162-301 | block by block, the decoded control signals do what the command-level meaning says |
| `Cfu.Accelerator.Clock` | proj/accel/cfu.v:128-322 | one edge of the whole module is one step of the command-level machine |
| `Words.LaneBytes` | proj/accel/cfu.v:64-74 | lane k of a word is its k-th byte, by division and remainder |
| `History.CounterCounts` | proj/accel/cfu.v:198-205 | the compute counter is the number of commands since the last restart, at most 12 |
| `History.WriteCounterCounts` | proj/accel/cfu.v:180-194 | the write counter is twice the number of writes since the last func 4, modulo 256 |
| `History.WritesLand` | proj/accel/cfu.v:180-194 | the k-th write after a func 4 fills words 2k and 2k+1, which keep its operands until the counter wraps |
| `History.UnwrittenStays` | proj/accel/cfu.v:180-194 | words no write has reached since the func 4 are as they were |
| `History.LastCommand` | proj/accel/cfu.v:209-299 | after every command of every run, the broadcast weight and the word unit u reads |
| `History.UnitStep` | proj/accel/cfu.v:64-86 | one func-1 command byte by byte: accumulator, product and operands of a unit, modulo 2^32 |
| `History.UnitsStay` | proj/accel/cfu.v:41-108 | no other command than func 1 below 12 and func 3 touches a unit |
| `History.ResetClears` | proj/accel/cfu.v:171-205 | what the reset pin clears, and that it clears the units only with cmd_valid |
| `Pipeline.TapAddress` | proj/accel/cfu.v:209-236 | the counter's address table plus the unit's offset is scratchpad word 6*(r+k/3)+(c+k%3), below 36 |
| `Pipeline.StreamControl` | proj/accel/cfu.v:198-236 | a run of func-1 commands changes counter, addresses and broadcast weight only as a function of its length |
| `Pipeline.StreamUnit` | proj/accel/cfu.v:64-86 | pipeline latency: after n commands a unit holds step n+1's operands, step n's product and the sum of the steps before |
| `Pipeline.BlockTerms` | proj/accel/cfu.v:64-86 | the twelve accumulated steps are what was in flight plus the nine tap products |
| `Pipeline.WeightBlockEffect` | proj/accel/cfu.v:64-86 | from any pipeline contents, a weight block adds its taps and what was in flight to one accumulator of every unit, keeps the other seven, and leaves the pipeline drained |
| `Pipeline.WeightBlockExactIff` | proj/accel/cfu.v:38-107 | the block is exact if and only if what was in flight is zero modulo 2^32 |
| `Drain.PhaseKeepsDrained` | proj/accel/cfu.v:41-108 | every driver phase keeps the pipeline drained and adds exactly its own taps to exactly its own accumulator |
| `Drain.DrainedThroughout` | proj/accel/src/tensorflow/lite/kernels/internal/reference/integer_ops/conv.h:208-307 | at every boundary of every run products, weight registers and the broadcast weight are zero, so nothing is in flight |
| `Drain.ReadAddresses` | proj/accel/cfu.v:278-299 | after any command all read addresses are below 58 |
| `Drain.ClearMakesQuiet` | proj/accel/cfu.v:44-63 | once the products are clear, func 3 makes the array quiet |
| `Drain.StaleProductIff` | proj/accel/cfu.v:44-63 | after a clear the first weight block is right if and only if the product register powered up at zero |
| `Failures.FirstBlockWrong` | proj/accel/cfu.v:44-63 | a power-up after which the first block, all weights zero, reads back one |
| `Protocol.ClockRefinesCommands` | proj/accel/cfu.v:163-276 | any polite clock run is the run of its accepted commands, and the delivered plus pending responses are theirs in order |
| `Protocol.OneResponseEach` | proj/accel/cfu.v:240-276 | accepted commands equal delivered responses plus at most one pending |
| `Protocol.ResponseHeld` | proj/accel/cfu.v:240-247 | an untaken response stays valid and unchanged |
| `Protocol.RepeatOnceIff` | proj/accel/cfu.v:167-171 | doing a command twice equals doing it once exactly under the guard |
| `Protocol.HeldCommandIff` | proj/accel/cfu.v:167-211 | holding a command for any time is harmless if and only if it is repeatable |
| `Protocol.StalledRun` | proj/accel/cfu.v:167-211 | every cycle with cmd_valid high executes the command once more |
| `Failures.EarlyPressWritesTwice` | proj/accel/cfu.v:167-194 | a run from reset in which one func-5 command pressed a cycle early writes twice |
| `Cpu.CfuOp0` | common/src/cfu.h:39-41 | one custom instruction, with any idle and waiting cycles, executes its command once and returns its response |
| `Conv.AddChannels` | proj/baseline/src/tensorflow/lite/kernels/internal/reference/integer_ops/conv.h:92-114 | the channel loop adds one tap's sum, every prefix inside int32_t |
| `Conv.ReferenceAcc` | proj/baseline/src/tensorflow/lite/kernels/internal/reference/integer_ops/conv.h:73-118 | the filter loops compute the nested sum, taps outside the image contributing nothing |
| `Conv.TermBound` | proj/baseline/src/tensorflow/lite/kernels/internal/reference/integer_ops/conv.h:97-112 | one product is at most 32640 in magnitude for offsets from -127 to 128 |
| `Conv.CountFits` | proj/baseline/src/tensorflow/lite/kernels/internal/reference/integer_ops/conv.h:97-112 | inside the accumulator bound no running sum of products reaches 2^31 |
| `Conv.DocumentedLimit` | proj/baseline/src/tensorflow/lite/kernels/internal/reference/integer_ops/conv.h:97-112 | the documented limit of 2^16 products is inside that bound |
| `Conv.AccumulatorInRange` | proj/baseline/src/tensorflow/lite/kernels/internal/reference/integer_ops/conv.h:97-112 | inside the bound the whole sum fits int32_t |
| `Conv.PlaceThenCoord` | proj/baseline/src/tensorflow/lite/kernels/internal/reference/integer_ops/conv.h:130-131 | an output position has its own index inside the tensor, from which it can be read back |
| `Conv.CoordThenPlace` | proj/baseline/src/tensorflow/lite/kernels/internal/reference/integer_ops/conv.h:130-131 | every index of the tensor is the place of exactly one output position |
| `Conv.ReferenceConvPerChannel` | proj/baseline/src/tensorflow/lite/kernels/internal/reference/integer_ops/conv.h:67-138 | the seven loops write the reference tensor at every index |
| `Meaning.ImpulseResponse` | proj/baseline/src/tensorflow/lite/kernels/internal/reference/integer_ops/conv.h:73-118 | a filter with a single weight makes the sum that weight times the offset input it meets, or zero outside the image or channel |
| `Meaning.Additive` | proj/baseline/src/tensorflow/lite/kernels/internal/reference/integer_ops/conv.h:73-118 | sums of filters have sums of accumulators |
| `Meaning.OnlyConvolution` | proj/baseline/src/tensorflow/lite/kernels/internal/reference/integer_ops/conv.h:73-118 | for every layer and output, the reference sum is the only function of the filter that is additive and right on impulses |
| `Meaning.OutputAt` | proj/baseline/src/tensorflow/lite/kernels/internal/reference/integer_ops/conv.h:130-131 | output (b, y, x, ch) is byte ((b*outH+y)*outW+x)*outD+ch, the finished sum of that position |
| `Meaning.OutputStage` | proj/baseline/src/tensorflow/lite/kernels/internal/reference/integer_ops/conv.h:122-131 | the bias enters before the rescaling, the offset after it, and the result is cut to the clamp range |
| `Meaning.PlainOutput` | proj/baseline/src/tensorflow/lite/kernels/internal/reference/integer_ops/conv.h:122-131 | with the identity for the rescaling the byte is sum plus bias plus offset, cut |
| `Tiles.PackedDot` | proj/accel/cfu.v:65-74 | one unit step on two packed words is four products of weight and offset activation |
| `Tiles.TapOfBlock` | proj/accel/src/tensorflow/lite/kernels/internal/reference/integer_ops/conv.h:225-262 | a packed tap is its four reference terms; the padding word contributes exactly the skipped zero |
| `Tiles.TileTap` | proj/accel/src/tensorflow/lite/kernels/internal/reference/integer_ops/conv.h:213-264 | unit u sees, at tap k, the input pixel the reference reads for output (y+u/4, x+u%4) |
| `Tiles.BlocksMakeReference` | proj/accel/src/tensorflow/lite/kernels/internal/reference/integer_ops/conv.h:211-307 | channel blocks, taps and lanes summed in the array's order give the reference accumulator |
| `Kernel.FetchPixel` | proj/accel/src/tensorflow/lite/kernels/internal/reference/integer_ops/conv.h:225-234 | four channels of a pixel, or the padding word outside the image, always within the tensor |
| `Kernel.WritePair` | proj/accel/src/tensorflow/lite/kernels/internal/reference/integer_ops/conv.h:236-236 | one func-5 command writes the next two tile words, below word 36, and leaves the units alone |
| `Kernel.LoadTile` | proj/accel/src/tensorflow/lite/kernels/internal/reference/integer_ops/conv.h:213-264 | after func 4 and eighteen writes the first 36 words are the tile, row by row |
| `Kernel.DrainedBlock` | proj/accel/src/tensorflow/lite/kernels/internal/reference/integer_ops/conv.h:272-303 | from a drained pipeline a block adds exactly its taps to accumulator i and drains again |
| `Kernel.SendBlock` | proj/accel/src/tensorflow/lite/kernels/internal/reference/integer_ops/conv.h:272-303 | the thirteen instructions of one output channel do just that on the clocked hardware |
| `Kernel.SendWeights` | proj/accel/src/tensorflow/lite/kernels/internal/reference/integer_ops/conv.h:270-305 | all eight accumulators of all sixteen units take one more channel block |
| `Kernel.ComputeTile` | proj/accel/src/tensorflow/lite/kernels/internal/reference/integer_ops/conv.h:205-307 | every accumulator of the array holds its output's reference sum modulo 2^32 |
| `Kernel.SingleSum` | proj/accel/src/tensorflow/lite/kernels/internal/reference/integer_ops/conv.h:83-166 | zero-extended single-channel bytes give the reference sum in every unit |
| `Kernel.LoadSingleTile` | proj/accel/src/tensorflow/lite/kernels/internal/reference/integer_ops/conv.h:73-124 | the single-channel tile: a byte per pixel, the padding word outside 28x28 |
| `Kernel.ComputeSingleTile` | proj/accel/src/tensorflow/lite/kernels/internal/reference/integer_ops/conv.h:69-167 | every value func 2 reads back equals the reference accumulator before bias |
| `Range.BlockPrefix` | proj/accel/cfu.v:64-86 | in a quiet array, j commands of a block have added exactly its first j-3 taps |
| `Range.EveryAccumulatorValueFits` | proj/accel/cfu.v:74-85 | after every command of every block, each accumulator register of each unit, read as signed, is the partial sum it stands for: none ever wraps |
| `Range.EverySingleValueFits` | proj/accel/cfu.v:74-85 | the same for the single-channel branch |
| `Range.ReadBackExactIff` | proj/accel/src/tensorflow/lite/kernels/internal/reference/integer_ops/conv.h:320-320 | an output inside the image reads back its sum for every image and filter if and only if 9 * inD * 32640 <= 2^31 |
| `Range.DeepLayerOverflows` | proj/accel/src/tensorflow/lite/kernels/internal/reference/integer_ops/conv.h:320-320 | a layer of depth 7312 that the driver accepts, with the sum and the different value read back |
| `Writeback.DriverIsReference` | proj/accel/src/tensorflow/lite/kernels/internal/reference/integer_ops/conv.h:201-337 | inside the accumulator bound the driver's tensor is the reference tensor |
| `Writeback.SingleChannelScaleIff` | proj/accel/src/tensorflow/lite/kernels/internal/reference/integer_ops/conv.h:186-186 | the single-channel tensor agrees under every rescaling if and only if the scales are constant in each group of eight |
| `Writeback.TelltaleShows` | proj/accel/src/tensorflow/lite/kernels/internal/reference/integer_ops/conv.h:186-186 | a group with two scales has a rescaling under which the two tensors differ |
| `Failures.TwoScalesDiffer` | proj/accel/src/tensorflow/lite/kernels/internal/reference/integer_ops/conv.h:186-186 | a 28x28 single-channel layer with two scales in one group, accepted by the driver, whose tensors differ |
| `Writeback.Requantise` | proj/accel/src/tensorflow/lite/kernels/internal/reference/integer_ops/conv.h:320-328 | bias, rescale, offset and clamp finish a read-back value as the reference does |
| `Writeback.StoreTile` | proj/accel/src/tensorflow/lite/kernels/internal/reference/integer_ops/conv.h:309-332 | reading the units in order stores exactly the sixteen by eight outputs of this tile and disturbs no other |
| `Writeback.AcceleratedConvPerChannel` | proj/accel/src/tensorflow/lite/kernels/internal/reference/integer_ops/conv.h:64-339 | end to end on the clocked hardware: the reference tensor at every index, and the array ready for the next layer |
| `Writeback.BothKernels` | proj/accel/src/tensorflow/lite/kernels/internal/reference/integer_ops/conv.h:201-337 | the accelerated and the reference kernel produce the same bytes |
| `Renode.LaneFits` | proj/example_renode/cfu.py:33-36 | every lane product fits sixteen signed bits, so no lane is truncated |
| `Renode.SimdMac.Clock` | proj/example_renode/cfu.py:38-47 | reset or accumulate on start, done for one cycle, hold otherwise |
| `Renode.SimdCfu.Clock` | python/amaranth_cfu/cfu.py:224-297 | one edge of the wrapper with the instruction in slot 0 and fallbacks in the other seven |
| `Renode.SimdCfu.CfuOp` | python/amaranth_cfu/cfu.py:262-297 | one custom instruction, any slot, any idle and waiting cycles: its answer, and the accumulator it leaves |
| `Renode.MeetsContract` | python/amaranth_cfu/cfu.py:137-145 | over every run the fallback answers in the accepting cycle with its first operand and the accumulate instruction one cycle later with its new sum |
| `Renode.CfuRefinesCommands` | python/amaranth_cfu/cfu.py:262-297 | over every clock run, the k-th response is the k-th accepted command's when commands are carried out one by one |
| `Renode.SumSinceReset` | proj/example_renode/cfu.py:38-47 | over a whole history the accumulator is the sum of all products since the last nonzero funct7, modulo 2^32 |
| `Simd.PackedProducts` | proj/example_renode/cfu.py:29-47 | the lanes of two packed words give four reference products |
| `Simd.Accumulate` | proj/example_renode/src/tensorflow/lite/kernels/internal/reference/integer_ops/conv_simd.h:86-110 | the last response holds the reference accumulator modulo 2^32 |
| `Simd.SimdConvPerChannel` | proj/example_renode/src/tensorflow/lite/kernels/internal/reference/integer_ops/conv_simd.h:79-126 | the depth-12 kernel writes exactly the reference tensor, for every batch |
| `Handshake.Cfu.Clock` | python/amaranth_cfu/cfu.py:272-297 | outputs and next state of the three-state machine in one cycle |
| `Handshake.InOrderResponses` | python/amaranth_cfu/cfu.py:236-303 | for instructions of any latency, responses answer the accepted commands in order, one each |
| `Handshake.RespondsWhenDone` | python/amaranth_cfu/cfu.py:258-291 | the response appears in the cycle in which the instruction first reports done, with its output, and no command is taken before |
| `Handshake.StartsOnce` | python/amaranth_cfu/cfu.py:279-282 | start is pulsed exactly in accepting cycles and only for the instruction funct3 selects |
| `Handshake.ResponseStable` | python/amaranth_cfu/cfu.py:258-297 | an untaken response stays valid and unchanged, and no new command is taken meanwhile |
| `Reader.MemoryReader.Clock` | python/amaranth_cfu/util.py:279-305 | the data shown in a cycle and the registers after it |
| `Reader.PrefetchedAfter` | python/amaranth_cfu/util.py:279-305 | after a restart the prefetch is always exactly one word ahead of what was consumed |
| `Reader.ReadsLikeAPointer` | python/amaranth_cfu/util.py:279-305 | data is word n mod limit, n counting the next pulses since the restart's cycle |
| `Reader.WithoutRestart` | python/amaranth_cfu/util.py:279-305 | from reset without a restart: zero until the first pulse, then one word behind |
| `Random.Seed.NextPseudoRandom` | common/src/playground_util/random.c:21-27 | the recurrence with its two constants modulo 2^64, and bits 28 to 59 of the new state returned |
| `Random.GeometricDivides` | common/src/playground_util/random.c:21-22 | with a multiplier 1 mod 4 the geometric sum has exactly as many factors of two as its length |
| `Random.ReturnIff` | common/src/playground_util/random.c:21-26 | the state returns to its start exactly after multiples of 2^64 steps |
| `Random.FullPeriod` | common/src/playground_util/random.c:21-26 | within one period no two positions hold the same state |
| `Random.VisitsEveryState` | common/src/playground_util/random.c:21-26 | every one of the 2^64 states occurs |
| `Random.OutputsEquidistributed` | common/src/playground_util/random.c:21-26 | over a period every 32-bit output occurs exactly 2^32 times |
| `Murmur.MurmurHash3` | common/src/playground_util/murmurhash.cc:19-110 | the chunk loop, the tail loop and the finaliser compute the hash of the byte string |
| `MurmurBits.RoundIff` | common/src/playground_util/murmurhash.cc:34-63 | one turn of the loop is exactly the described one: products, rotations and exclusive or, bit by bit, with the source's constants |
| `MurmurBits.FinishIff` | common/src/playground_util/murmurhash.cc:87-107 | so are the remaining bytes, the length and the finaliser with its shifts |
| `MurmurBits.HashIff` | common/src/playground_util/murmurhash.cc:19-110 | for every byte string the hash is the described one, little-endian loads included, and no other |
| `Murmur.ScrambleBijective` | common/src/playground_util/murmurhash.cc:54-56 | the chunk mixing is undone by its inverse, both ways |
| `Murmur.RoundBijective` | common/src/playground_util/murmurhash.cc:54-63 | for a given hash exactly one chunk leads to each next hash |
| `Murmur.RoundKeepsDifference` | common/src/playground_util/murmurhash.cc:61-63 | different hashes stay different through a round |
| `Murmur.AvalancheKeepsDifference` | common/src/playground_util/murmurhash.cc:103-107 | different hashes stay different through the finaliser |
| `Murmur.OneChunkNeverCollides` | common/src/playground_util/murmurhash.cc:45-110 | equal-length strings that differ in exactly one chunk have different hashes |
| `Murmur.TailNeverCollides` | common/src/playground_util/murmurhash.cc:66-110 | so have strings that differ only in the tail |
| `Line.DrawLine` | common/src/fb_util.c:200-286 | word y*width+x takes the colour exactly when (x, y) is on the line, every other word stays |
| `Line.DrawSlope` | common/src/fb_util.c:251-283 | the loop plots the closed-form row in every column |
| `Line.VerticalIff` | common/src/fb_util.c:225-232 | a vertical line is every row between the ends, in its column |
| `Line.HorizontalIff` | common/src/fb_util.c:233-240 | a horizontal line is every column between the ends, in its row |
| `Line.ShallowIff` | common/src/fb_util.c:241-283 | a pixel is drawn if and only if its row is the nearest to the true line in its column, ties towards the left end's row |
| `Line.SteepIff` | common/src/fb_util.c:241-283 | a steep line is the diagonal from its left end |
| `Line.BothEnds` | common/src/fb_util.c:222-283 | both ends are drawn when the line is vertical or not steeper than the diagonal |
| `Line.ClimbNext` | common/src/fb_util.c:275-281 | the decision variable picks the closed-form row of the next column |
| `Line.HalfPixelAccurate` | common/src/fb_util.c:262-282 | every pixel drawn of a shallow line is within half a pixel of the true line |
| `Line.FarEndIff` | common/src/fb_util.c:268-282 | both ends are drawn if and only if the line is not steeper than the diagonal |
| `Line.SteepLineStopsShort` | common/src/fb_util.c:268-282 | the line from (0, 0) to (1, 2) does not reach (1, 2) |
| `Line.OnePerColumn` | common/src/fb_util.c:268-282 | a column has a pixel if and only if it lies between the ends, exactly one, in a row between the two end rows |
| `Line.SwapEnds` | common/src/fb_util.c:242-257 | swapping the ends draws the same pixels |
| `Division.DivInstructionHandler` | common/src/instruction_handler.cc:35-56 | only the slot of rd changes, to the decoded operation's value, for every register number |
| `Division.InstructionHandler` | common/src/instruction_handler.cc:60-72 | opcode 0x33 is handled and stepped over, anything else left alone |
| `Division.TrapHandler` | common/src/base.c:41-47 | only an illegal instruction reaches the handler |
| `Division.TrapEntry` | common/src/crt0-vexriscv.S:39-110 | for every cause, instruction, register file and stack: what the program sees afterwards, and nothing above its stack pointer changed |
| `Division.DecodeEncoded` | common/src/instruction_handler.cc:35-39 | the shifts and masks give back every field of every instruction word |
| `Division.TrapOnWord` | common/src/instruction_handler.cc:35-56 | from the instruction word to the registers: for registers other than x0 and x2 only rd changes |
| `Division.OtherTraps` | common/src/base.c:41-47 | any other cause, opcode or funct3 changes nothing |
| `Division.RightIff` | common/src/crt0-vexriscv.S:42-44 | the trap does what the instruction should, for all registers and stacks, if and only if it names neither x0 nor x2, up to harmless remainders |
| `Division.ZeroDividend` | common/src/instruction_handler.cc:31-38 | an instruction word, registers and a stack for which `div x10, x0, x11` answers 2 |
| `Division.SignedDivision` | common/src/instruction_handler.cc:40-49 | div and rem meet section 7.2 of the RISC-V Unprivileged ISA, zero divisor and overflow included |
| `Division.UnsignedDivision` | common/src/instruction_handler.cc:44-52 | divu and remu meet the same section |
| `Lram.FlatDecodes` | soc/hps_lattice_nx.py:95-116 | bank and block address are decoded back from the flat word number |
| `Lram.DecodeInside` | soc/hps_lattice_nx.py:123-147 | every address of the memory selects an existing bank and its own word |
| `Lram.SizeInBytes` | soc/hps_lattice_nx.py:83-90 | the memory has 64 KiB per bank and lane |
| `Lram.DecodeAny` | soc/hps_lattice_nx.py:95-131 | every bus address, modulo a power of two, is its own flat word or selects an absent bank |
| `Lram.MergedBytes` | soc/hps_lattice_nx.py:162-187 | an enabled byte lane reads back as written, a disabled one as it was |
| `Lram.MergedByte` | soc/hps_lattice_nx.py:162-187 | the same for a whole bus word, byte by byte, by division and remainder |
| `Lram.StoredIsWritten` | soc/hps_lattice_nx.py:123-147 | what the lanes of the selected bank store is one word of the flat memory |
| `Lram.NXLRAM.Write` | soc/hps_lattice_nx.py:123-191 | the write side of one edge merges exactly one word of the flat memory; an absent bank stores nothing |
| `Lram.NXLRAM.Clock` | soc/hps_lattice_nx.py:123-194 | one edge: data lines, acknowledge, output registers and memory |
| `Lram.NXLRAM.Transfer` | soc/hps_lattice_nx.py:132-194 | a transfer is acknowledged in its second cycle; written twice is written once, and the word read is the flat memory's |
| `Lram.NXLRAM.ReadPortB` | soc/hps_lattice_nx.py:149-174 | port B of bank i at p reads flat word depth*p + i |
| `CycleCounter.Retry` | common/src/perf.h:68-71 | each retry starts from a larger high word, so the loop ends |
| `CycleCounter.TwoRetries` | common/src/perf.h:67-71 | two failing passes in a row take more than 2^32 cycles |
| `CycleCounter.PerfGetMcycle64` | common/src/perf.h:67-74 | the whole counter at the low read of the first pass whose upper halves agree, after at most one retry when two passes are short |

## Left out

- Cfu.Accelerator.constructor: unknown values (X) do not propagate; a register holds some word, and the address registers power up inside the scratchpad.
- Cfu.Accelerator.ClockScratchpad: dropping a write outside the scratchpad follows the Verilog simulation rule; a synthesised memory may alias. The driver never gets there.
- Writeback.Requantise: `Add32` wraps where the C code leaves signed overflow undefined.
- Random.Seed.NextPseudoRandom: signed overflow is taken to wrap, as the constants intend; C leaves it undefined.
- Line.DrawLine: the decision variable is unbounded; the source keeps it in int32_t, which suffices for any screen below 2^29 pixels a side.
- Division.TrapEntry: the 64-bit library helpers are taken as truncating division with the dividend as remainder by zero; called code is assumed to keep to its own stack below the frame; the interrupt routine's device accesses and the shorter frame of processors with a divider.
- Lram.NXLRAM.Clock: the RAM primitive is not in the repository; a reading block latches its word on the edge, the output of any other block is unspecified.
- Murmur.MurmurHash3: a little-endian machine with 32-bit size_t is assumed.
- CycleCounter.PerfGetMcycle64: the 64-bit counter itself is assumed not to wrap while it is read.
- Handshake.Cfu.Clock: the reset wire and the LRAM ports.
- Reader.MemoryReader.Clock: memory contents and limit are fixed during a run.
- `MultiplyByQuantizedMultiplier` and the TFLite shape classes: not in the repository.
- The 16-bit overload of `ConvPerChannel`, the unrolled and constant-shape copies of the kernels and the depth-1 branch of the SIMD kernel: the same loops again, or loops that do not compute the reference sum for negative weights.
- `ValueBuffer`, `pack_vals`, `all_words`, `tree_sum`, RAM initialisation values, menus, UART, SPI flash, other framebuffer drawing, benchmarks and board workflows: easy or input/output only.
- Physical timing, cycle counts and performance.
