# Vash in Dafny

Vash turns arbitrary input data into an abstract image, so that the image can be used as a visual hash. A seed keyed by the data and a salt yields a stream of random draws. A guided random walk over a weighted table of operations uses those draws to grow a tree of operation nodes. Each node computes a plane of values over the image's coordinates, and the root `RGB_Space` turns its three children's planes into a frame of bytes.

This project models that core and proves properties of the model:

- `seed_hvac.dfy` (`SeedHvac`): the HMAC-based bit stream of the `HvacProvider` inside src/vash/Seed.java: the counter block, the bit cursor, `nextBits`, `nextDouble`, and `nextInt` with its rejection loop. `HvacProvider` is a class over the same fields as the source.
- `seed.dfy` (`Seeds`): the `Seed` facade. It maps an algorithm tag to a backend, turns the salt into the backend's key, and dispatches each draw. It keeps the entropy counter and a ghost log of the draws it served.
- `values.dfy` (`Values`): `Bounded`, `Wrapping` and `Position`. These are the parameters a node draws from the seed.
- `plane.dfy` (`Planes`) and `image_parameters.dfy` (`ImageParams`): the planes of values and the plane pool that `getPlane`/`putPlane` lend out and take back, with the coordinate arrays.
- `operation.dfy` (`Operations`) and `factory.dfy` (`Factory`): the operation tags, and the class `OperationFactory.createNode` builds for each tag under each algorithm.
- `tree_parameters.dfy` (`TreeParams`): the ratio and channel tables of the two table algorithms, and the depth bounds.
- `nodes.dfy` (`Nodes`): one class `OperationNode` for every node class. It covers the children's slots, `accumulateValues`, `clone`, and `compute` for `Const`, `Divide`, `Multiply` and `RGB_Space`. The node's value as a function of the column and the row is the reference that `compute` is proved against.
- `tree_walk.dfy` (`TreeWalk`): `concat`, `_totalFreq` and the weighted walk of `_selectOp`, as values.
- `tree_grammar.dfy` (`TreeGrammar`): the trees `_buildNode` can grow from a log of draws, and the shape every such tree has.
- `trees.dfy` (`Trees`): the `Tree` class. It covers its constructor, `_buildNode`, `_selectOp`, `__buildChannelMask`, `__getChannelExclusionCount`, `setGenerationParameters` and the guard of `generateCurrentFrame`. Each method is proved against the grammar and the walk.
- `options.dfy` (`CommandLine`): `Options`. The command-line loop and its validation are written as a pure parse over the arguments. The class's methods are proved against that parse.
- `output_parameters.dfy` (`Outputs`) and `animation_mode.dfy` (`Animation`): the choice of output type by file extension, and the animation-mode parser.
- `jvm.dfy` (`Jvm`) and `wrappers.dfy` (`Wrappers`): Java's 32-bit arithmetic, shifts, ASCII `toLowerCase`, and the exceptions as a `Result`.

Thrown exceptions are modelled as the `Failure` side of a `Result`.

Where the documentation and the code disagree, the model follows the code:

- The HVAC counter block is written most significant byte first (src/vash/Seed.java:139-143), although the comment on line 139 calls it little endian.
- The entropy counter of `Seed` adds 53 bits for every double and 31 for every integer draw (src/vash/Seed.java:332,350).

## Model

| member | source | states |
|---|---|---|
| SeedHvac.CounterBytesBigEndian | src/vash/Seed.java:140-143 | the four counter bytes `(Toffset >> (j*8)) & 0xFF` for j = 3..0 are the 32-bit pattern of the counter, most significant byte first |
| SeedHvac.BlockAtIsHmac | src/vash/Seed.java:132-147 | each block of the key stream is the HMAC of the previous block, the INFO bytes and the counter, and the counter goes up by one per block (wrapping at 32 bits) |
| SeedHvac.InitialBlock | src/vash/Seed.java:121-129 | the first block the constructor makes is the HMAC of 32 zero bytes, INFO and a zero counter |
| SeedHvac.Skip | src/vash/Seed.java:186-191 | moving on n bits keeps the bit position inside a 256-bit block |
| SeedHvac.DrawAcc | src/vash/Seed.java:182-194 | the `out` accumulated before a read of n bits ends up shifted n places up, with the n bits read below it |
| SeedHvac.DrawBound | src/vash/Seed.java:182-194 | a read of n bits onto an accumulator `acc` stays below `(acc + 1) * 2^n` |
| SeedHvac.StreamValueBound | src/vash/Seed.java:182-194 | `nextBits(n)` returns a number below 2^n |
| SeedHvac.DrawSkip | src/vash/Seed.java:182-194 | reading a bits and then b bits is one read of a + b bits |
| SeedHvac.StreamValueSplit | src/vash/Seed.java:161-165 | two reads joined as `(x << b) + y` are one read of a + b bits, which is how `nextDouble` joins its two draws |
| SeedHvac.SkipAdd | src/vash/Seed.java:182-194 | skipping a bits and then b bits is skipping a + b bits |
| SeedHvac.SkipArith | src/vash/Seed.java:186-191 | after n bits the position is `(bit + n) % 256` and one block has been made for every 256 bits crossed |
| SeedHvac.BytePrefix | src/vash/Seed.java:150-158 | the first m bits read from a byte boundary are the top m bits of that byte |
| SeedHvac.BitInByte | src/vash/Seed.java:150-158 | bit j of byte q of a block sits at stream position `q*8 + j` and is bit `7 - j` of the byte |
| SeedHvac.StreamValueByte | src/vash/Seed.java:150-158 | eight bits read from a byte boundary are that byte: bytes are served high bit first |
| SeedHvac.NextDoubleInUnit | src/vash/Seed.java:161-165 | the HVAC double is in [0, 1) |
| SeedHvac.RoundNext | src/vash/Seed.java:175-178 | each round of the rejection loop reads the 31 bits after the previous round's |
| SeedHvac.RejectTestIsOverflow | src/vash/Seed.java:178 | the loop test `bits - val + (n-1) < 0` is the 32-bit overflow that happens exactly when the last bucket below 2^31 is incomplete |
| SeedHvac.RejectedThrough | src/vash/Seed.java:175-178 | one more rejected round extends the run of rejected rounds |
| SeedHvac.NextIntInRange | src/vash/Seed.java:167-180 | `nextInt(n)` throws exactly when n <= 0 and otherwise returns a value in [0, n) |
| SeedHvac.FirstAcceptedUnique | src/vash/Seed.java:175-178 | the loop stops at one round only: the first one accepted |
| SeedHvac.NextIntUnique | src/vash/Seed.java:167-180 | `nextInt(n)` has one outcome and one position in the stream after it, whatever path the loop takes |
| SeedHvac.KeyedExpand | src/vash/Seed.java:106-114 | the expansion HMAC is keyed with the first 32 bytes of the extracted key |
| SeedHvac.HvacProvider.constructor | src/vash/Seed.java:121-129 | a fresh provider has made block T(1) from a zero block with counter 0, holds counter 1 and reads from bit 0 |
| SeedHvac.HvacProvider.Create | src/vash/Seed.java:78-130 | a salt that is given but not 64 bytes throws `InvalidSaltException`; otherwise the key is extracted from the salt (or the default salt) and the data, and the provider starts at bit 0 of T(1) |
| SeedHvac.HvacProvider.Counter | src/vash/Seed.java:140-143 | the loop writes the counter bytes high byte first |
| SeedHvac.HvacProvider.ExpandBlock | src/vash/Seed.java:134-146 | the input `Tcurrent || INFO || counter` is hashed into the next block of the chain |
| SeedHvac.HvacProvider.NextT | src/vash/Seed.java:132-159 | `nextT` appends one block, wraps the counter up by one and resets the bit position |
| SeedHvac.HvacProvider.FillBits | src/vash/Seed.java:150-158 | bit `i*8 + (7-j)` of `Tbits` is bit j of byte i of the new block, for every i and j |
| SeedHvac.HvacProvider.ReadBit | src/vash/Seed.java:186-191 | one round of the read loop returns the bit at the position and steps past it, making the next block when 256 bits are used |
| SeedHvac.HvacProvider.NextBits | src/vash/Seed.java:182-194 | `nextBits(n)` returns the next n bits of the stream, most significant first, and moves the position on by n |
| SeedHvac.HvacProvider.NextDouble | src/vash/Seed.java:161-165 | `nextDouble` is `((l0 << 27) + l1) / 2^53` over the next 26 and 27 bits and moves on 53 bits |
| SeedHvac.HvacProvider.RejectionLoop | src/vash/Seed.java:174-179 | the loop returns `bits % n` of the first accepted round and stops right after that round |
| SeedHvac.ZeroDraw | src/vash/Seed.java:174-179 | on a chain whose every block is zero bytes, every draw is 0 |
| SeedHvac.ZeroChainAccepts | src/vash/Seed.java:174-179 | on that chain the first round of every rejection loop with an `int` bound is accepted, so the loop always ends |
| SeedHvac.HvacProvider.NextInt | src/vash/Seed.java:167-180 | `nextInt(n)` has the outcome the stream determines: an exception for n <= 0, the scaled 31 bits for a power of two, else the first accepted round |
| Seeds.AlgorithmOf | src/vash/Seed.java:238-251 | any tag other than "1-fast", "1" and "1.1" throws `InvalidAlgorithmException` |
| Seeds.AlgorithmOfTag | src/vash/Seed.java:238-251 | exactly the three tags are accepted, and each selects its own algorithm |
| Seeds.SaltSizeForAlgorithm | src/vash/Seed.java:220-227 | the salt size is 64 for every known algorithm and the lookup throws for exactly the unknown ones |
| Seeds.LcgSeed | src/vash/Seed.java:272-278 | the seed of `java.util.Random` is below 2^48 |
| Seeds.LcgSeedIsBigEndian | src/vash/Seed.java:272-278 | the seed is the first six digest bytes read big-endian: the shifted bytes do not overlap, so each `|` adds |
| Seeds.TwisterWord | src/vash/Seed.java:304-307 | each key word packs into a 32-bit `int` |
| Seeds.TwisterKey | src/vash/Seed.java:302-308 | the twister key is 16 words, word i packing digest bytes 4i..4i+3 |
| Seeds.TwisterWordIsBigEndian | src/vash/Seed.java:304-307 | key word i is digest bytes 4i..4i+3 read big-endian, as a 32-bit pattern |
| Seeds.EntropyCounts | src/vash/Seed.java:328-352 | the entropy count of a run of draws is 53 per double and 31 per int |
| Seeds.EntropyStep | src/vash/Seed.java:328-352 | adding to the wrapped `int` counter draw by draw gives the wrapped total |
| Seeds.Seed.constructor | src/vash/Seed.java:238-251 | a new seed has used no entropy and drawn nothing, with the backend its algorithm selects |
| Seeds.Seed.BackendDouble | src/vash/Seed.java:325-331 | the double comes from HVAC when present, else from the twister, else from `java.util.Random`, and is in [0,1) |
| Seeds.Seed.NextDouble | src/vash/Seed.java:324-334 | a double in [0,1) from the first backend present, logged as a draw, with 53 added to the wrapped entropy counter |
| Seeds.Seed.NextInt | src/vash/Seed.java:342-352 | a value in [0,n) from the first backend present, with 31 added to the counter; n <= 0 throws before the counter moves |
| Seeds.Seed.Tally | src/vash/Seed.java:328-352 | the draw is logged and the counter moves on by the draw's bits, wrapping at 32 bits |
| Seeds.Seed.BackendInt | src/vash/Seed.java:344-349 | the int comes from HVAC when present, else the twister, else `java.util.Random`, and throws for n <= 0 |
| Seeds.Seed.BitsOfEntropyUsed | src/vash/Seed.java:358-360 | the counter is 53 per double plus 31 per int drawn so far, wrapped to 32 bits |
| Seeds.Seed.PackTwisterKey | src/vash/Seed.java:302-308 | the loop fills the 16 key words from the digest |
| Seeds.Seed.Init1Fast | src/vash/Seed.java:254-280 | the `Random` seed is the packed MD5 of the salt (when given) followed by the data |
| Seeds.Seed.Init1 | src/vash/Seed.java:283-310 | a salt shorter than 64 bytes fails reading 64 of its bytes; otherwise the twister key is the packed SHA-512 of the first 64 salt bytes followed by the data |
| Seeds.PromisedSatisfiable | src/vash/Seed.java:238-317 | primitives that return zero everywhere keep every promise the seed relies on |
| Seeds.ValidSeedsExist | src/vash/Seed.java:238-360 | over those primitives and without a salt, each of "1", "1-fast" and "1.1" builds a seed that draws a double in [0, 1) and an int below 10 and then reports 84 bits of entropy used |
| Seeds.Seed.Create | src/vash/Seed.java:238-317 | the constructor fails exactly for an unknown tag, a short salt for "1" and a salt of the wrong size for "1.1", with each one's exception; otherwise the selected backend is keyed from the salt and data and nothing has been drawn |
| Values.Scale | src/vash/value/Bounded.java:60-65 | `nextDouble() * (upper - lower) + lower` lies in [lower, upper) for a draw in [0,1) and is `lower` for a zero draw |
| Values.Coordinate | src/vash/value/Position.java:60-63 | `nextDouble() * 2 - 1` is the draw scaled to [-1, 1) |
| Values.Bounded.Origin | src/vash/value/Bounded.java:50-52 | the default value is 0 in [-1, 1] |
| Values.Bounded.FromSeed | src/vash/value/Bounded.java:60-65 | one double is drawn and scaled into [lower, upper), with the bounds kept and no range check |
| Values.Bounded.Of | src/vash/value/Bounded.java:81-88 | the checked constructor's fields, for a value already known in range |
| Values.Bounded.Create | src/vash/value/Bounded.java:81-88 | a value below `lower` or above `upper` throws `IllegalArgumentException`, the bounds themselves included in the range |
| Values.Bounded.CreateUnit | src/vash/value/Bounded.java:71-73 | the one-argument constructor checks against [-1, 1] |
| Values.Bounded.Clone | src/vash/value/Bounded.java:90-93 | a clone goes through the checked constructor, so it throws when `setV` has moved the value out of range, and otherwise copies all three fields |
| Values.Bounded.HasBounds | src/vash/value/Bounded.java:111-113 | holds iff both bounds are exactly equal to the given ones, and then the range check is the check against those bounds |
| Values.Bounded.SetV | src/vash/value/Bounded.java:99-101 | `setV` stores the value with no check and no clamping |
| Values.Wrapping.FromSeed | src/vash/value/Bounded.java:60-65 | like `Bounded`, one double scaled into [lower, upper); Wrapping.java is not part of this model |
| Values.Wrapping.Clone | src/vash/value/Bounded.java:90-93 | the copy has the same value and bounds |
| Values.Position.Origin | src/vash/value/Position.java:52-54 | the default position is (0, 0) |
| Values.Position.At | src/vash/value/Position.java:78-82 | the position holds the given coordinates |
| Values.Position.FromSeed | src/vash/value/Position.java:60-63 | two doubles are drawn, x first, each mapped to [-1, 1) |
| Values.Position.Copy | src/vash/value/Position.java:69-71 | the copy constructor takes both coordinates |
| Values.Position.Clone | src/vash/value/Position.java:84-87 | a fresh position with the same coordinates |
| Values.Position.SetX | src/vash/value/Position.java:93-95 | only x changes |
| Values.Position.SetY | src/vash/value/Position.java:100-102 | only y changes |
| Values.Position.HasBounds | src/vash/value/Position.java:104-107 | always holds: a position accepts any bounds |
| Planes.Plane.constructor | src/vash/Plane.java:34-38 | a fresh w by h array and the two sizes |
| ImageParams.CoordinatesInside | src/vash/ImageParameters.java:51-56 | every column's x and every row's y lies strictly inside (-1, 1) |
| ImageParams.ImageParameters.Create | src/vash/ImageParameters.java:42-57 | a negative width or height throws `NegativeArraySizeException`; any other sizes give the constructor's state |
| ImageParams.ImageParameters.constructor | src/vash/ImageParameters.java:42-57 | for sizes that are not negative: an empty cache, zero counters, and `Y[j] = 1 - dy/2 - j*dy` and `X[i] = -1 + dx/2 + i*dx`: the centres of equal slices, rows top first |
| ImageParams.ImageParameters.LentApart | src/vash/ImageParameters.java:94-117 | two different planes out at the same time never share a buffer |
| ImageParams.ImageParameters.AdmitsBudget | src/vash/ImageParameters.java:113-114 | when `w*h*4` does not wrap, `putPlane` keeps a plane exactly when the planes out and cached take less than 64 MiB |
| ImageParams.ImageParameters.GetPlane | src/vash/ImageParameters.java:94-105 | `_gets` goes up by one; the first cached plane is removed and returned, or a new w by h plane when the cache is empty; the plane is now out |
| ImageParams.ImageParameters.TakeCached | src/vash/ImageParameters.java:101-103 | `removeFirst`: the cache's head is handed out and the rest stays in order |
| ImageParams.ImageParameters.Allocate | src/vash/ImageParameters.java:104 | a new plane of the image's size, the cache unchanged |
| ImageParams.ImageParameters.TakeFront | src/vash/ImageParameters.java:101-103 | the cache's head is not out, and the rest of the cache keeps distinct buffers |
| ImageParams.ImageParameters.PutPlane | src/vash/ImageParameters.java:111-117 | `_puts` goes up by one and the plane goes to the front of the cache exactly when the budget test (with `w*h*4` wrapping as Java `int`) admits it; otherwise it is dropped |
| ImageParams.ImageParameters.CacheAfterFrom | src/vash/ImageParameters.java:111-117 | putting several planes back only ever adds those planes to the cache |
| ImageParams.ImageParameters.PushFront | src/vash/ImageParameters.java:115 | a returned plane added at the front keeps the cache's buffers distinct |
| ImageParams.ImageParameters.GetYXPlane | src/vash/ImageParameters.java:125-127 | always a new h by w plane, the cache untouched |
| ImageParams.ImageParameters.PutYXPlane | src/vash/ImageParameters.java:129-134 | changes nothing: with no modifies clause, the cache, `_gets` and `_puts` keep their values, and the plane is not pooled |
| Operations.AllTags | src/vash/Tree.java:53-79 | the 18 tags each fall in exactly one of the three candidate lists `TOPS`, `NODES` and `LEAFS` |
| Operations.ArityAndShape | src/vash/operation/BinaryOperationNode.java:26-29 | unary classes have one child and binary classes two, and with `RGB_Space` they hold no parameters; `Const` has no child and one `Bounded` in [-1, 1] |
| Operations.DrawCountOfShape | src/vash/operation/Flower.java:54-61 | the doubles a class's seed constructor draws are two per `Position` and one per other parameter, plus `Flower`'s point count |
| Operations.DrawsForAllUnrolled | src/vash/operation/Flower.java:54-61 | a proof step of `DrawCountOfShape`: the draw count of a parameter list of at most four, written out term by term |
| Operations.PointsFrom | src/vash/operation/Flower.java:60 | `(int)(d * 11.0) + 1` over a draw in [0,1) is between 1 and 11 |
| TreeParams.RatioOnly | src/vash/operation/OpParams.java:33-36 | the one-argument `OpParams` keeps the ratio and sets channels to 3 |
| TreeParams.SumConcat | src/vash/Tree.java:80-103 | the total of two lists joined is the sum of their totals, so `NODES_AND_LEAFS_total` is the total of `concat(NODES, LEAFS)` |
| TreeParams.SumConcatFrom | src/vash/Tree.java:44-50 | the running sum of `_totalFreq` over a joined list splits at the join |
| TreeParams.SumShift | src/vash/Tree.java:44-50 | the sum over the second part of a joined list is that list's own sum |
| TreeParams.SumOfTable | src/vash/Tree.java:44-50 | `_totalFreq` over the map the constructor fills is the sum of the table's ratios |
| TreeParams.Bounds | src/vash/TreeParameters.java:172-222 | every ratio in both tables is non-negative and every channel count is in [0, 3] |
| TreeParams.SharedTable | src/vash/TreeParameters.java:173-197 | "1" and "1-fast" share one table whose channel counts are all 3 |
| TreeParams.ZeroWeights | src/vash/TreeParameters.java:172-222 | the tags the walk never picks: Sinc, Sine, Const and Ellipse for "1", Sinc, Sine and Const for "1.1" |
| TreeParams.TopsTotal | src/vash/TreeParameters.java:177-202 | the only top-level tag has ratio 1, so `TOPS_total` is 1 |
| TreeParams.NodesTotals | src/vash/TreeParameters.java:179-190 | `NODES_total` is 5.6 for "1" and 4.4 for "1.1" |
| TreeParams.LeafsTotals | src/vash/TreeParameters.java:192-197 | `LEAFS_total` is 7.5 for "1" and 9.5 for "1.1" |
| TreeParams.TreeParameters.Fill | src/vash/TreeParameters.java:172-230 | the seed, the depth bounds 2 and 8, and exactly the table of the seed's algorithm |
| TreeParams.TreeParameters.PutsOne | src/vash/TreeParameters.java:173-197 | the 18 `put` calls for "1" and "1-fast" build exactly that table |
| TreeParams.TreeParameters.PutsOnePointOne | src/vash/TreeParameters.java:198-222 | the 18 `put` calls for "1.1" build exactly that table |
| TreeParams.TreeParameters.Create | src/vash/TreeParameters.java:167-231 | it fails exactly when the seed's constructor does: an unknown tag throws `InvalidAlgorithmException`, a salt shorter than 64 bytes under "1" `IllegalArgumentException`, and a salt of other than 64 bytes under "1.1" `InvalidSaltException`; otherwise the seed is new, has drawn nothing and carries the given tag |
| TreeParams.TreeParameters.Ratio | src/vash/TreeParameters.java:262-265 | `getOperationRatio` is the table's ratio for the tag, never negative |
| TreeParams.TreeParameters.Channels | src/vash/TreeParameters.java:272-275 | `getOperationChannels` is the table's channel count for the tag, in [0, 3] |
| Factory.ClassAndTag | src/vash/operation/OperationFactory.java:28-53 | each tag builds a class of its own and every class comes from its tag; the linear gradient's class is fixed by the algorithm |
| Factory.ListsByArity | src/vash/operation/OperationFactory.java:28-53 | `TOPS` build `RGB_Space` with three children, `NODES` build classes with one or two, `LEAFS` build classes with none |
| Factory.TopsByArity | src/vash/operation/OperationFactory.java:30 | only RGB builds `RGB_Space` |
| Factory.NodesByArity | src/vash/operation/OperationFactory.java:32-43 | a tag is in `NODES` exactly when its class has one or two children |
| Factory.LeafsByArity | src/vash/operation/OperationFactory.java:45-50 | a tag is in `LEAFS` exactly when its class has no children |
| Factory.CreateNode | src/vash/operation/OperationFactory.java:28-53 | `createNode` builds the tag's class with empty child slots and its parameters drawn from the seed, and only appends to the seed's draws |
| Factory.CreateLinearGradient | src/vash/operation/OperationFactory.java:55-60 | algorithms "1" and "1-fast" build the legacy `LinearGradient`, "1.1" builds `LinearGradient1` |
| Nodes.Clampf | src/vash/operation/OperationNode.java:154-156 | `min(max(x, lower), upper)`: inside the bounds, x unchanged below and above them the nearer bound |
| Nodes.ConstEverywhere | src/vash/operation/Const.java:60-72 | a `Const` plane holds its `Bounded` value at every cell |
| Nodes.DivideCells | src/vash/operation/Divide.java:39-46 | a `Divide` cell is 1 where the divisor's cell is 0, and otherwise the quotient clamped to [-1, 1], so always in [-1, 1] |
| Nodes.MultiplyCells | src/vash/operation/Multiply.java:39-43 | a `Multiply` cell is the product of its children's cells, in [-1, 1] when both are |
| Nodes.ValueList.constructor | src/vash/Tree.java:91 | the tree's `values` list starts empty |
| Nodes.ValueList.AddAll | src/vash/operation/OperationNode.java:113-117 | a node's parameters are appended in order at the end of the list |
| Nodes.ValueList.Add | src/vash/operation/OperationNode.java:115 | `values.add(v)` appends one parameter |
| Nodes.OperationNode.Model | src/vash/operation/OperationNode.java:36-66 | the tree a complete node stands for has the node's class, its parameters' current values and its children's trees |
| Nodes.OperationNode.Blank | src/vash/operation/OperationNode.java:55-66 | a node with the class's parameters and, when the class has children, a new array of empty child slots (`null` when it has none) |
| Nodes.OperationNode.FromSeed | src/vash/operation/Flower.java:54-61 | each class's seed constructor draws its parameters from the seed, in order, and leaves the child slots empty |
| Nodes.OperationNode.Unary | src/vash/operation/UnaryOperationNode.java:35-38 | a unary node whose one slot holds the given child |
| Nodes.OperationNode.Binary | src/vash/operation/BinaryOperationNode.java:36-40 | a binary node whose slots hold the two children in order |
| Nodes.OperationNode.Color | src/vash/operation/RGB_Space.java:26-31 | an `RGB_Space` over the red, green and blue children in that order |
| Nodes.OperationNode.ConstOf | src/vash/operation/Const.java:44-46 | `Const(init)` throws `IllegalArgumentException` outside [-1, 1] and otherwise is the constant with that value |
| Nodes.OperationNode.ChildCount | src/vash/operation/OperationNode.java:71-74 | `getChildCount` is the class's arity, 0 when there is no child array |
| Nodes.OperationNode.GetValues | src/vash/operation/OperationNode.java:104-106 | `getValues` is `null` for a class with no parameters and otherwise the class's parameters in order |
| Nodes.OperationNode.SetChild | src/vash/operation/OperationNode.java:94-98 | `setChild` stores the child in the slot; with no child array it throws a `NullPointerException`, and an offset outside the array throws `ArrayIndexOutOfBoundsException` |
| Nodes.OperationNode.SetChildren | src/vash/operation/OperationNode.java:81-87 | the first slots are overwritten by the given children in order; more children than slots throw `ArrayIndexOutOfBoundsException` after the slots that exist are filled, and a node with no child array throws `NullPointerException` for any child |
| Nodes.OperationNode.AccumulateValues | src/vash/operation/OperationNode.java:112-123 | `accumulateValues` appends the node's parameters and then its children's, recursively, at the end of the list |
| Nodes.OperationNode.AccumulateChildren | src/vash/operation/OperationNode.java:118-122 | the children's parameters are appended child by child, in slot order |
| Nodes.OperationNode.AccumulatedInPreOrder | src/vash/operation/OperationNode.java:112-123 | what `accumulateValues` appends is the tree's parameters in pre-order |
| Nodes.OperationNode.PreOrderFromKids | src/vash/operation/OperationNode.java:118-122 | the parameters of the children from slot i on are the pre-order of those subtrees |
| Nodes.OperationNode.Clone | src/vash/operation/Const.java:55-58 | `clone` copies the whole subtree into fresh objects with the same parameters; it throws `IllegalArgumentException` exactly when some `Bounded` in the subtree has been set out of its range |
| Nodes.OperationNode.CloneFrom | src/vash/operation/RGB_Space.java:37-40 | the children are cloned in slot order, and the first failure is the result |
| Nodes.OperationNode.Assemble | src/vash/operation/Flower.java:37-48 | the private constructor taking cloned parameters and children builds a node equal to the original |
| Nodes.OperationNode.Copy | src/vash/operation/Flower.java:37-48 | the node holds exactly the given parameters and children, and nothing else is new but its own objects |
| Nodes.OperationNode.CloneValues | src/vash/operation/Flower.java:63-66 | the parameters are cloned in order into new objects with the same values; a `Bounded` out of range throws |
| Nodes.OperationNode.NewSlots | src/vash/operation/OperationNode.java:61-65 | no child array for arity 0, and otherwise a new array of that many empty slots |
| Nodes.OperationNode.Compute | src/vash/operation/Divide.java:35-50 | `compute` throws `RuntimeException` when the subtree holds an `RGB_Space`; otherwise it returns one plane, taken from the pool, whose every cell is the subtree's value at that column and row, with all the children's planes handed back |
| Nodes.OperationNode.Combine | src/vash/operation/Divide.java:38-49 | after the children: `getPlane`, the cell loop, then `putPlane` of each child's plane in slot order |
| Nodes.OperationNode.ComputeFrom | src/vash/operation/Divide.java:36-37 | the children are computed in slot order from slot i on; each plane holds its child's value and is out of the pool |
| Nodes.OperationNode.ComputeRest | src/vash/operation/Divide.java:36-37 | after the plane of slot i, the remaining children are computed in order |
| Nodes.OperationNode.Fill | src/vash/operation/Multiply.java:39-43 | the loop sets every cell of the output from the children's cells at that column and row |
| Nodes.OperationNode.FillHolds | src/vash/operation/Multiply.java:39-43 | a plane filled cell by cell from planes that hold the children's values holds the node's value |
| Nodes.OperationNode.ReturnAll | src/vash/operation/Divide.java:47-48 | the planes are handed back in order, each one going through `putPlane`'s budget test |
| Nodes.OperationNode.Pixels | src/vash/operation/RGB_Space.java:48-73 | it fails exactly when a child holds an `RGB_Space` or `w * h * 3` wraps in `int` arithmetic, the latter with `NegativeArraySizeException` for a negative length and `ArrayIndexOutOfBoundsException` otherwise; else it returns the frame: three bytes per pixel in blue, green, red order, rows from the bottom up, each byte the child's value mapped from [-1, 1] to 0..255; every plane taken is handed back |
| Nodes.OperationNode.Paint | src/vash/operation/RGB_Space.java:54-72 | when `w * h * 3` wraps in `int` arithmetic it throws (`NegativeArraySizeException` for a negative length, `ArrayIndexOutOfBoundsException` otherwise) and no plane changes hands; else the buffer of `w * h * 3` bytes is filled from the three planes, which are then handed back in order red, green, blue |
| Nodes.PixLength | src/vash/operation/RGB_Space.java:54 | the allocated length `w * h * 3`, computed in 32-bit arithmetic, is the frame's byte count exactly when that count fits an `int` |
| Nodes.OperationNode.FillPixels | src/vash/operation/RGB_Space.java:56-66 | the double loop writes byte n from the plane and the cell the frame layout names for n |
| Nodes.OperationNode.FrameFromPlanes | src/vash/operation/RGB_Space.java:56-66 | bytes taken from planes that hold the children's values are the frame of the tree |
| Nodes.OperationNode.DrawAll | src/vash/operation/Flower.java:54-61 | a class's parameters take one double each (two for a `Position`) in order, and `Flower` then takes its point count from one more |
| Nodes.OperationNode.DrawValues | src/vash/operation/Flower.java:56-59 | the parameters are drawn in order, each from the doubles that follow the previous one's |
| Nodes.OperationNode.DrawValue | src/vash/value/Bounded.java:60-65 | one `Bounded` or `Wrapping` draws one double, a `Position` two, and the new value depends only on those draws |
| Nodes.Channel | src/vash/operation/RGB_Space.java:59-61 | `(byte)floor((v + 1) / 2 * 255)`: for v in [-1, 1) the floor of the scaled value, and 255 at v = 1 |
| Nodes.PixelIndex | src/vash/operation/RGB_Space.java:56-65 | the byte the loop writes for a channel of a pixel lies inside the buffer |
| Nodes.PixelDecode | src/vash/operation/RGB_Space.java:56-65 | from the index the loop writes, the column, the row and the channel can be read back |
| Nodes.PixelCovers | src/vash/operation/RGB_Space.java:56-65 | every byte of the buffer is written for exactly one channel of one pixel |
| Nodes.FramePixel | src/vash/operation/RGB_Space.java:57-65 | in the frame, channel c of column x in row y is the red, green or blue child's value at that column and row, mapped to a byte |
| TreeWalk.Concat | src/vash/Tree.java:39-43 | `concat` is the first array followed by the second |
| TreeWalk.CandidateClasses | src/vash/Tree.java:53-80 | with the table depth bounds 2 and 8, only level 0 offers `RGB_Space`, the `NODES` list (levels 1..2) offers only classes with children and the `LEAFS` list (level 8 on) only leaves |
| TreeWalk.SumParamsConcat | src/vash/Tree.java:80 | the ratio sum over `NODES_AND_LEAFS` is the sum over `NODES` plus the sum over `LEAFS` |
| TreeWalk.SumParamsShift | src/vash/Tree.java:80 | summing from an index inside the second half of a concatenation sums that half |
| TreeWalk.TotalIsSum | src/vash/Tree.java:191-203 | the total each level uses is the ratio sum of the list it uses, and it is positive |
| TreeWalk.TotalsAreSums | src/vash/Tree.java:100-103 | the four totals are the sums of the ratios of the three lists, and the joint total is the sum of the node and leaf totals |
| TreeWalk.SharedSums | src/vash/TreeParameters.java:173-197 | the two seed algorithms that share a ratio table give the same sums |
| TreeWalk.FirstPastUnique | src/vash/Tree.java:209-215 | at most one candidate is the first whose running total passes `rand` |
| TreeWalk.PickIs | src/vash/Tree.java:209-215 | the pick is the candidate whose running total is the first to pass `rand` |
| TreeWalk.PickedAt | src/vash/Tree.java:209-215 | a pick is at an index whose running total is the first to pass `rand` |
| TreeWalk.PickNone | src/vash/Tree.java:209-217 | the walk finds nothing exactly when no running total passes `rand`, and what it finds is a candidate of the list |
| TreeWalk.LeastPast | src/vash/Tree.java:209-215 | if some running total passes `rand`, a first one does, no later |
| TreeWalk.ThroughIsSum | src/vash/Tree.java:209-212 | the running total of candidate k plus the sum of the ratios after it is the whole list's sum |
| TreeWalk.PickHasWeight | src/vash/Tree.java:209-215 | for `rand >= 0` the picked candidate has a positive ratio |
| TreeWalk.PickBelowTotal | src/vash/Tree.java:209-217 | a `rand` in [0, total) always finds a candidate, so the `RuntimeException` is never thrown |
| TreeWalk.WalkIsPick | src/vash/Tree.java:208-217 | the loop returns exactly the first candidate whose running total passes `rand` |
| TreeWalk.WalkFrom | src/vash/Tree.java:209-215 | the walk resumed at candidate i with the running total so far agrees with the pick |
| TreeWalk.ScaledBelow | src/vash/Tree.java:206 | a double in [0, 1) scaled by a positive total lies in [0, total) |
| TreeWalk.PickAtLevel | src/vash/Tree.java:191-215 | at every level and for every draw in [0, 1) the walk picks a candidate of that level's list with a positive ratio |
| TreeWalk.PickWithin | src/vash/Tree.java:206-215 | a `rand` below the list's sum picks one of the list's candidates of positive ratio |
| TreeGrammar.HeadShape | src/vash/Tree.java:191-203 | a class allowed at its level is `RGB_Space` exactly at the root, has children down to the minimum depth and is a leaf from the maximum depth on |
| TreeGrammar.ChosenIsOk | src/vash/Tree.java:221-223 | the class the factory builds for the walk's pick is listed at its level, has a positive ratio and is the factory's class for its tag |
| TreeGrammar.ChosenOk | src/vash/Tree.java:221-223 | every class the walk and the factory choose follows the rules of its level |
| TreeGrammar.Grow | src/vash/Tree.java:175-182 | a grown subtree takes at least the walk's draw and no more draws than the log holds |
| TreeGrammar.GrowAt | src/vash/Tree.java:176-181 | after the walk's draw, the node's own draws and then its children's are taken |
| TreeGrammar.GrowKids | src/vash/Tree.java:177-180 | `count` children are grown one after the other, each after the previous one's draws |
| TreeGrammar.GrowExtends | src/vash/Tree.java:175-182 | what a subtree takes is decided by the draws so far: a longer log grows the same subtree |
| TreeGrammar.GrowSome | src/vash/Tree.java:175-182 | a grown subtree's class is the one its first draw chooses, its own draws follow, and a class with children is above the maximum depth |
| TreeGrammar.GrowSame | src/vash/Tree.java:175-182 | two logs that agree on a node's draws and its children's grow the same node |
| TreeGrammar.GrowLeaf | src/vash/Tree.java:176-181 | a leaf is its class built from the draws after the walk's |
| TreeGrammar.GrowInner | src/vash/Tree.java:176-181 | a node with slots is its class built over the children grown after its own draws |
| TreeGrammar.GrowsInto | src/vash/Tree.java:176-181 | a node grows when its first draw chooses its class, the next ones made its parameters and its children grow after them |
| TreeGrammar.BuiltExtends | src/vash/Tree.java:176 | the node built from draws of a log is the one built from them in a longer log |
| TreeGrammar.GrowKidsExtends | src/vash/Tree.java:177-180 | the children grown from a log are the ones grown from any longer log |
| TreeGrammar.KidsPut | src/vash/Tree.java:177-180 | the last child grown right after the others completes the list of children |
| TreeGrammar.KidsLast | src/vash/Tree.java:177-180 | a list of grown children splits into the ones before the last and the last grown after them |
| TreeGrammar.KidsSnoc | src/vash/Tree.java:177-180 | one more child grown after the others extends the list by it |
| TreeGrammar.KidsGrowOn | src/vash/Tree.java:177-180 | the children grown from a log, and one more grown from the rest of a longer log, form the longer list |
| TreeGrammar.WalkerObeys | src/vash/Tree.java:185-223 | every class `_selectAndCreateOp` builds follows the shape rules of its level |
| TreeGrammar.GrowIsGrown | src/vash/Tree.java:175-182 | every subtree grown follows the shape rules at every level and has its classes' slots and parameters |
| TreeGrammar.GrowKidsAreGrown | src/vash/Tree.java:177-180 | every child grown follows the rules one level deeper |
| TreeGrammar.AllGrownSnoc | src/vash/Tree.java:177-180 | adding a grown child keeps the whole list grown |
| TreeGrammar.BuiltGrown | src/vash/Tree.java:176-181 | a node of an allowed class over grown children is grown |
| TreeGrammar.BuiltFits | src/vash/operation/Flower.java:54-61 | a node built by a seed constructor has its class's parameters |
| TreeGrammar.DrawnFits | src/vash/operation/Flower.java:54-59 | the parameters drawn for a shape have that shape |
| TreeGrammar.GrownDepth | src/vash/Tree.java:198-200 | no node of a grown tree lies below the maximum depth |
| TreeGrammar.GrownKidsDepth | src/vash/Tree.java:198-200 | no child of a grown node lies below the maximum depth |
| TreeGrammar.GrownLeavesDeep | src/vash/Tree.java:194-197 | every leaf of a grown tree lies deeper than the minimum depth |
| TreeGrammar.GrownColorless | src/vash/Tree.java:191-203 | no node below the root of a grown tree is an `RGB_Space` |
| TreeGrammar.GrownPaintable | src/vash/Tree.java:170-172 | a tree grown from level 0 is an `RGB_Space` over three channels without an `RGB_Space`, so `compute(ip, true)` can paint it |
| Trees.ExclusionsRound | src/vash/Tree.java:142-168 | the exclusion count is in 0..3: 3 for at most 0 channels, 0 from 3 on, 3 - n at an integer n, and between n and n + 1 it is 2 - n when the draw is at most the fraction and 3 - n otherwise |
| Trees.ExclusionsWithoutDraw | src/vash/Tree.java:142-168 | when the channel count is an integer or outside (0, 3) no draw matters |
| Trees.ExclusionsMonotone | src/vash/Tree.java:142-168 | for the same draw, more channels never exclude more |
| Trees.MaskCounts | src/vash/Tree.java:116-134 | a mask for count 0..3 sets count channels: for 2 all but the drawn one, for 1 only the drawn one |
| Trees.LogSlice | src/vash/Tree.java:176 | after the walk's draw and a node's own draws, the log holds them in that order |
| Trees.NodeGrows | src/vash/Tree.java:175-182 | the walk's draw, the node's own draws and its children's grow the node |
| Trees.WalkSelects | src/vash/Tree.java:206-217 | the walk at any level with a draw in [0, 1) finds a candidate |
| Trees.ZeroTree | src/vash/Tree.java:98-107 | over the zero primitives and without a salt, each algorithm's parameters build a valid tree with no image parameters yet |
| Trees.TreesExist | src/vash/Tree.java:244-263 | such a tree, given 4x4 image parameters, paints a frame of 48 bytes |
| Trees.Tree.Create | src/vash/Tree.java:98-107 | the constructor grows from the seed's next draws the tree the grammar grows and lists its parameters in pre-order |
| Trees.Tree.constructor | src/vash/Tree.java:98-107 | the fields hold the parameters, the totals, the root and its parameter list, with no `ImageParameters` yet |
| Trees.Tree.ComputeTotals | src/vash/Tree.java:100-103 | the four totals are the ratio sums of the algorithm's table |
| Trees.Tree.BuildToplevel | src/vash/Tree.java:170-172 | the root is an `RGB_Space`, paintable, grown from the draws it takes |
| Trees.Tree.CollectValues | src/vash/Tree.java:106 | a new list holds the tree's parameters in pre-order |
| Trees.Tree.SetGenerationParameters | src/vash/Tree.java:244-246 | the tree keeps the given `ImageParameters` and is otherwise unchanged |
| Trees.Tree.GenerateCurrentFrame | src/vash/Tree.java:259-263 | without `ImageParameters` it throws `IllegalArgumentException`; when `w * h * 3` wraps in `int` arithmetic it throws as `RGB_Space` does; otherwise it returns a new buffer holding the tree's frame over the coordinate arrays |
| Trees.Tree.TotalFreq | src/vash/Tree.java:44-50 | the loop sums the ratios of the list |
| Trees.Tree.SelectOp | src/vash/Tree.java:185-218 | one double in [0, 1) is drawn, and the result is the candidate the walk picks for it scaled by the level's total; the throw is never reached |
| Trees.Tree.ListFor | src/vash/Tree.java:191-203 | the list and the total follow the level: `TOPS` at 0, `NODES` to the minimum depth, `LEAFS` from the maximum depth, both otherwise |
| Trees.Tree.WalkList | src/vash/Tree.java:208-217 | the loop returns what the walk picks |
| Trees.Tree.SelectAndCreateOp | src/vash/Tree.java:221-223 | one walk draw, then the draws of the class's seed constructor; the node has the chosen class and empty slots |
| Trees.Tree.BuildNode | src/vash/Tree.java:175-182 | the node built is the subtree the grammar grows from the draws it takes |
| Trees.Tree.FillNode | src/vash/Tree.java:177-180 | the node's slots are filled by children built one level deeper, and the whole is the grown subtree |
| Trees.Tree.AttachChildren | src/vash/Tree.java:177-180 | a node over the children grown after its draws is the subtree grown from its first draw |
| Trees.Tree.PlaceChildren | src/vash/Tree.java:177-180 | `setChild` for each slot in order leaves the node over exactly the given children |
| Trees.Tree.BuildChildren | src/vash/Tree.java:177-180 | n children are built in slot order, each from the draws after the previous one's |
| Trees.Tree.BuildNext | src/vash/Tree.java:178-179 | one more child built from the next draws extends the grown list of children |
| Trees.Tree.ChannelExclusionCount | src/vash/Tree.java:142-168 | a double is drawn only for a fractional channel count in (0, 3), and the result is the exclusion count for that draw |
| Trees.Tree.BuildChannelMask | src/vash/Tree.java:116-134 | a count outside 0..3 throws `IllegalArgumentException`; 1 and 2 draw `nextInt(3)`, and the result is the count's mask for the draw |
| Trees.Tree.Mask | src/vash/Tree.java:117-132 | a new array holding the mask of the count and the drawn channel |
| CommandLine.ListedFromIsMember | src/vash/Options.java:298-314 | the search of the table from index i finds the word exactly when it is among the entries from i on |
| CommandLine.TakesArgumentIsMember | src/vash/Options.java:329 | `haveArg.contains(arg)` holds exactly for the words of that list |
| CommandLine.Normalized | src/vash/Options.java:123-135 | the normalised salt has the algorithm's salt size: the salt's first bytes, then zero bytes when it is shorter |
| CommandLine.NormalizedIdempotent | src/vash/Options.java:123-135 | normalising a normalised salt changes nothing |
| CommandLine.NormalizedIgnoresTail | src/vash/Options.java:123-135 | bytes past the salt size, and zero bytes appended to a short salt, make no difference |
| CommandLine.NormalizedExact | src/vash/Options.java:123-135 | a salt of exactly the salt size is kept as it is |
| CommandLine.KnownAlgorithmsAreSeeds | src/vash/Options.java:66-68 | the names `KNOWN_ALGORITHMS` lists are exactly the tags the seed accepts |
| CommandLine.HaveArgIsValued | src/vash/Options.java:298-314 | a word is in `haveArg` exactly when it is a recognised option whose branch reads a value |
| CommandLine.ListedIsValued | src/vash/Options.java:298-314 | every word of `haveArg` is a recognised option that reads a value |
| CommandLine.ValuedIsListed | src/vash/Options.java:329-383 | every option whose branch reads a value is listed in `haveArg`, so its value is checked to exist first |
| CommandLine.StepCounts | src/vash/Options.java:345-381 | one branch moves `haveData` only for `-d`, `haveFile` only for `-f`, sets the data only for those two and the algorithm only for `-a`, and leaves the salt alone |
| CommandLine.ScanCounts | src/vash/Options.java:326-385 | after the loop `haveData` and `haveFile` count the `-d` and `-f` options, data is set exactly when one of them appeared, the algorithm is unchanged without `-a`, and the salt is untouched |
| CommandLine.ReadyIsComplete | src/vash/Options.java:388-428 | a command line that passes has exactly one of `-d` and `-f`, data set, a known algorithm the seed accepts and a salt of the seed's size |
| CommandLine.SameFileRefused | src/vash/Options.java:416-418 | once the data and algorithm checks pass, a salt file with the same name as the data file is refused before the salt is read |
| CommandLine.SaltIsNormalized | src/vash/Options.java:413-428 | validation changes only the salt: a salt file is read and normalised, otherwise a literal salt is normalised, otherwise the salt is kept; both at once is refused |
| CommandLine.SpellingsAgree | src/vash/Options.java:339-377 | the long and the short spelling of each option select the same branch and both read a value or neither |
| CommandLine.StepSpellings | src/vash/Options.java:329-383 | one step of the loop does the same for either spelling of an option |
| CommandLine.UnrecognizedFirst | src/vash/Options.java:382-383 | a first word that is no option is refused as not recognised |
| CommandLine.MissingValue | src/vash/Options.java:292-333 | an option that reads a value given alone is refused for its missing argument, except `-h` alone, which prints the help and exits 0 |
| CommandLine.NoArguments | src/vash/Options.java:399-400 | an empty command line is refused because `-d` is missing |
| CommandLine.ScanAppend | src/vash/Options.java:326-385 | the loop over a longer command line reaches the state after its first words and goes on from there |
| CommandLine.LastNeedsArgument | src/vash/Options.java:329-333 | any command line whose last word reads a value is refused for its missing argument |
| CommandLine.UnrecognizedRefused | src/vash/Options.java:382-383 | a word that is no option, after any accepted words, is refused as not recognised |
| CommandLine.DataOptionsChecked | src/vash/Options.java:388-404 | the checks in order: `-d` twice, `-f` twice, both, neither, and then no `-a` |
| CommandLine.RepeatOverrides | src/vash/Options.java:345-377 | for any option other than `-d` and `-f`, a second step of the same option leaves the same state as that step alone, whatever the first value was |
| CommandLine.StepSetsOwnField | src/vash/Options.java:345-369 | a branch changes the algorithm, output, width or height only when it is that field's option, and the sizes are what `Integer.decode` gives |
| CommandLine.ScanLastWins | src/vash/Options.java:326-385 | after the loop the algorithm, output, width and height are the values given with the last `-a`, `-o`, `-w`, `-h` in either spelling (the sizes decoded), and unchanged when the option does not occur |
| CommandLine.LastOccurrenceWins | src/vash/Options.java:320-425 | on an accepted command line the algorithm is the last `-a` given, the output, width and height the last `-o`, `-w`, `-h` given or the defaults "output.png", 128, 128; with an `Integer.decode` that stays in `int`, both sizes are `int`s |
| CommandLine.LongOptionsParsed | src/test/TestOptions.java:96-109 | the unit test's long-spelling command line is accepted with algorithm "1", output "output", width 42 and height 24 |
| CommandLine.ShortOptionsParsed | src/test/TestOptions.java:111-123 | the same command line in the short spellings gives the same four settings |
| CommandLine.RepeatDataCounts | src/vash/Options.java:347-353 | repeating `-d` or `-f` sets the same data as once, but counts both occurrences |
| CommandLine.DebugOptions | src/vash/Options.java:378-381 | `--debug-tree` and `--debug-entropy` add their flag and change nothing else |
| CommandLine.Options.constructor | src/vash/Options.java:73-91 | a new `Options` holds the field defaults |
| CommandLine.Options.SetAlgorithm | src/vash/Options.java:185-187 | only the algorithm changes |
| CommandLine.Options.SetDataBytes | src/vash/Options.java:97-99 | only the data changes, to the given bytes |
| CommandLine.Options.SetDataFile | src/vash/Options.java:100-111 | only the data changes, to the named file |
| CommandLine.Options.SetSaltBytes | src/vash/Options.java:162-164 | an unknown algorithm fails and changes nothing; otherwise only the salt changes, to the normalised bytes |
| CommandLine.Options.SetSaltFile | src/vash/Options.java:140-179 | an unknown algorithm fails and changes nothing; otherwise only the salt changes, to the file's bytes normalised |
| CommandLine.Options.SetOutput | src/vash/Options.java:192-194 | only the output name changes |
| CommandLine.Options.SetOutputFormat | src/vash/Options.java:199-201 | only the output format changes |
| CommandLine.Options.SetWidth | src/vash/Options.java:206-208 | only the width changes |
| CommandLine.Options.SetHeight | src/vash/Options.java:213-215 | only the height changes |
| CommandLine.Options.SetAnimationMode | src/vash/Options.java:220-222 | only the animation mode changes |
| CommandLine.Options.SetDuration | src/vash/Options.java:227-229 | only the duration changes |
| CommandLine.Options.SetPeriod | src/vash/Options.java:234-236 | only the period changes |
| CommandLine.Options.SetFrameRate | src/vash/Options.java:241-243 | only the frame rate changes |
| CommandLine.Options.SetDebugFlag | src/vash/Options.java:246-248 | only the debug flags change, gaining the flag |
| CommandLine.Options.HasDebugFlag | src/vash/Options.java:249-251 | holds exactly when the flag is in the settings' debug flags, that is, when it has been set |
| CommandLine.Options.HasADebugFlagSet | src/vash/Options.java:249-259 | true exactly when one of the given flags is set |
| CommandLine.Options.NormalizeSaltBytes | src/vash/Options.java:123-135 | an unknown algorithm fails; otherwise the salt normalised to the salt size |
| CommandLine.Options.Apply | src/vash/Options.java:329-384 | one pass of the loop body does what its step function says: the same failure, exit, or new settings |
| CommandLine.Options.ApplyFlag | src/vash/Options.java:336-384 | the branch for a recognised option does what its step function says |
| CommandLine.Options.FromArgs | src/vash/Options.java:291-429 | `Options(String[])` fails exactly when the command line is refused, with the same error, exits when it does, and otherwise returns new options holding the settings the parse gives |
| CommandLine.Options.ReadArgs | src/vash/Options.java:326-385 | the loop over all the words ends as the scan does |
| CommandLine.Options.ReadOption | src/vash/Options.java:327-384 | one word, and its value when it reads one, is consumed and the scan goes on from the next |
| CommandLine.Options.Check | src/vash/Options.java:388-428 | the checks after the loop fail exactly when validation does, with the same error, and otherwise the options hold the validated settings |
| Outputs.NewOutputParameters | src/vash/OutputParameters.java:66-81 | success exactly for "-" or a name whose lower-cased form ends in ".png", ".jpg" or ".bmp", keeping the name and the size; otherwise `IllegalArgumentException`, or `StringIndexOutOfBoundsException` for a name shorter than four characters |
| Outputs.LowerDash | src/vash/OutputParameters.java:69-74 | only "-" lower-cases to "-" |
| Outputs.ImageTypeFromTable | src/vash/OutputParameters.java:71-74 | the image type is the one listed for the suffix the name ends in, and "png" for "-" |
| Outputs.ExtensionDecides | src/vash/OutputParameters.java:71-73 | the suffixes exclude one another, so a name ending in one gets that one's type whatever the order of the tests |
| Outputs.CaseInsensitive | src/vash/OutputParameters.java:69 | names equal up to letter case are accepted alike, with the same type, and the name is kept as given |
| Outputs.AcceptedNames | src/vash/OutputParameters.java:71-74 | "foo.png", "foo.jpg", "foo.bmp" and "-" are accepted as png, jpeg, bmp and png |
| Outputs.LowerCaseName | src/vash/OutputParameters.java:71-73 | a lower-case name ending in a listed suffix gets that suffix's type |
| Outputs.NoSuffixRefused | src/vash/OutputParameters.java:75-80 | a name of four characters or more ending in none of the suffixes, and not "-", is refused with `IllegalArgumentException` |
| Outputs.RefusedNames | src/vash/OutputParameters.java:75-80 | "foo.bar" and "foo.jpeg" are refused with `IllegalArgumentException`, and "a" throws while the message is built |
| Outputs.RefusedLowerName | src/vash/OutputParameters.java:75-80 | "foo.bar" (the name the unit test refuses) and "foo.jpeg" (ending in "jpeg", not ".jpg") throw `IllegalArgumentException` |
| Animation.ParseAnimationMode | src/vash/AnimationMode.java:33-40 | a result is a constant whose name equals the string ignoring case; otherwise `IllegalArgumentException` and no constant's name matches |
| Animation.ParseName | src/vash/AnimationMode.java:33-40 | parsing a constant's name gives the constant back |
| Animation.ParseIgnoresCase | src/vash/AnimationMode.java:34-36 | spellings that differ only in letter case parse alike |
| Animation.ParseExactly | src/vash/AnimationMode.java:33-40 | a string parses to a constant exactly when it is the constant's name in some letter case |

## Left out

- Input and output are not modelled. That covers opening and reading files, standard input and output, printing the help, the version and the known algorithms (`showKnownAlgorithms`), and `System.exit`. An exit is modelled as an `Exited` or `Halt` result, and the bytes a salt file yields are the `Host.fileBytes` parameter.
- `setData(String)` opens its file when called and exits when the file is missing. The model records the file name instead.
- `Integer.decode`, `Double.parseDouble`, Base64 decoding and `String.getBytes` are the conversion functions of the `Host` parameter. The model does not define them.
- MD5, SHA-512, HMAC, `java.util.Random` and `MersenneTwisterFast` are total functions passed in as the `Primitives` parameter. `Seeds.Promised` assumes of them the ranges their libraries promise, and one thing more: on every keyed HVAC stream the rejection loop of `nextInt` ends for every `int` bound (`SeedHvac.Accepts`). Whether HMAC-SHA256 has that property is not proved; `Seeds.PromisedSatisfiable` shows that the assumptions can all hold at once. `Seed.Valid()` carries the assumption, so every member that requires a valid seed, valid `TreeParameters` or a valid `Tree` relies on it.
- Floating point is modelled as `real`, so rounding and the error of a double are not modelled. The double-to-byte conversion of `RGB_Space` is modelled with Java's saturation and wrap-around.
- `toLowerCase` and `equalsIgnoreCase` are modelled for ASCII letters only.
- The trigonometric and geometric node classes have their constructors, parameters and draw order modelled. Their per-cell formulas are the `Formula` parameter. Only the formulas of `Const`, `Divide` and `Multiply` are written out.
- The legacy `LinearGradient` computes a transposed plane with one extra `getPlane`/`putPlane`. That transpose is not modelled.
- Wrapping.java, Absolute.java, Add.java, Invert.java and Modulus.java are not part of this model. `Wrapping` is taken to draw one double like `Bounded`. The arities of the four node classes follow the comments in src/vash/Tree.java.
- SeedHvac.HvacProvider.NextInt: the rejection loop is not proved to end; it requires the predicate `Terminates` on the stream instead.
- CommandLine.Options.FromArgs: `Options(String[])` is a static method returning a `Result`, because a constructor cannot fail.
- The animation fields of `TreeParameters`, `Tree.setTime` and `Value.setTime`, and key frames are not modelled. Animation is unfinished in the source.
- `show` and `toString` of trees and nodes produce text only, and are not modelled.
- The unit test testOptionsStringArray is stated both as the general lemma `LastOccurrenceWins` and as its two evaluations; testNoSaltDataSharing is stated as the general lemma `SameFileRefused`, not as that evaluation.
