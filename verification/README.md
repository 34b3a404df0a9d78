# fast_uuid: verified model of the UUID engine

A Dafny 4.11 model of the C extension `fast_uuid` (`fast_uuid.c`,
`php_fast_uuid.h`) and of the PHP `compat/` code that computes the same
quantities another way. `dafny verify dfyconfig.toml` checks all of it.

## What is modelled

The environment is arbitrary everywhere: the block cipher is any function from a
key and a block to a block, the operating system answers each random request
with any bytes or a failure, and the clock reads anything (stalled, backward,
failing, past 64 bits). A theorem about runs holds for every sequence of calls.

- `Csprng.dfy`, `CsprngLemmas.dfy`, `SeedBudget.dfy`, `Forks.dfy`, `AesStream.dfy`: the CSPRNG. CTR keystream with fast
  key erasure, reseeding, the 8 KiB serving buffer, direct and streamed draws,
  fork reset. The state carries its history: every source of random bytes and
  every slice of one that reached a caller.
- `Generators.dfy`, `Xoshiro.dfy`, `Layout.dfy`: versions 1, 2, 4, 6 and 7 over the module
  globals, as functions; `Event`, `Step` and `Run` are whole runs.
- `Contents.dfy`: what each call returns, bit by bit: which clock reading, supplied field
  or drawn byte it shows, and when it fails.
- `Runs.dfy`, `Reachable.dfy`: the theorems about every run and every reachable state.
- `Engine.dfy`: class `ModuleGlobals`, the globals struct with its arrays, updated in
  place by the methods of the source. `View()` is the value the functions above
  work on; `Handle` and `HandleAll` tie any call and any run on the object to
  `Step` and `Run`, and what `HandleAll` returns to the order and distinctness
  theorems.
- `Positional.dfy`, `Bytes.dfy`, `Words.dfy`: numbers in any base, bytes and their order, words
  in memory.
- `Decimal.dfy`, `PackV7.dfy`, `LocalId.dfy`, `TimeCodec.dfy`: 128-bit decimals in place,
  the version 7 timestamp by four routes, the DCE identifier by two, tick and
  Unix time.
- `Hex.dfy`, `Fields.dfy`: formatters, parser, validators, and the PHP hex slicing.

Unsigned shifts and masks by powers of two are written as division and
remainder. The types `Word`, `Int32` and `Int64` bound every intermediate the
source keeps in that width, and `Time60`, `RandB` and `Visible` are the bounds
the source asserts (`g < 2^60`, 62-bit `rand_b`, `vis < 2^28`), so a possible
overflow or failed assertion would be a verification error. The theorems of
`Runs.dfy` start from any state, so without a fork in between they also hold of
every stretch of a longer run. Strings are byte
strings written with `char`.

## Where code and documentation differ

- SECURITY.md promises fresh OS entropy every 64 KiB. The threshold is tested
  before a chunk, and direct draws need not divide 64 KiB: up to 65535 + 8192 bytes
  come from one seed (`SinceSeedBound`), and a run reaches that (`SeedOutlives64K`).
  A draw keeps the promise exactly when it takes nothing from the generator, starts
  with a reseed, starts at a multiple of 8192 bytes, or ends within 64 KiB
  (`RandBudgetIff`, `RandomBytesBudgetIff`). Programs that draw n bytes at a time keep
  it in all their runs, given the AES backend and an OS that answers, exactly when n
  neither lies strictly between 4096 and 8192 nor is a larger non-multiple of 8192 that
  the API accepts (`SizeBudgetIff`).
- `GenericValidator::stripWrappers` caps input at 47 bytes as the longest accepted
  form. The C parser accepts up to 58 (`ParseAcceptsIff`), so the validators reject
  some texts it accepts in canonical form: exactly those longer than 47
  (`NonstandardIff`, with an example in `CapIsTooShort`).

## Model

| member | source | states |
|---|---|---|
| Csprng.CountersDistinct | fast_uuid.c:411-414 | counters fewer than 2^64 steps apart differ |
| Csprng.CtrAddLanes | fast_uuid.c:411-414 | the low counter lane advances modulo 2^64 and the high lane does not move |
| AesStream.AesCtr | fast_uuid.c:415-467 | the eight-way loop and two-block tail write exactly the first len keystream bytes, byte i from the cipher at counter + i/16, and nothing else; the key becomes the next two blocks; the low counter lane advances by ceil(len/16)+2 modulo 2^64 and the high lane does not move |
| AesStream.StreamShows | fast_uuid.c:405-414 | keystream, successor key and next counter in terms of the cipher and the counter lanes alone |
| Csprng.XorByteLaws | fast_uuid.c:633-634 | every binary digit of the exclusive or is the sum modulo 2, so zero changes nothing and mixing undoes itself |
| Csprng.ReseedMixes | fast_uuid.c:630-638 | a reseed fails exactly when the OS does, and xoring the old key and counter out of the new ones leaves all 48 bytes of the answer |
| Csprng.ReseedIsInjective | fast_uuid.c:630-638 | from one state, different OS answers leave different keys or counters |
| Csprng.ReseedFromZero | fast_uuid.c:630-638 | from the zeroed state the key and counter are the OS answer itself |
| CsprngLemmas.DrbgFillOk | fast_uuid.c:628-646 | a fill of any length keeps the key chain (each key at most 8192 bytes) and returns exactly the bytes of the new sources it logs, each from its first byte on |
| CsprngLemmas.FillLogsChunks | fast_uuid.c:628-646 | a fill only adds sources, and one of n bytes that succeeds logs ceil(n / 8192) sources in order and draws each whole: 8192 bytes, the last what remains |
| CsprngLemmas.RandOk | fast_uuid.c:661-676 | every fu_rand, buffered or streamed, failing or not, keeps the invariant (no byte served twice, buffer tail unserved, keys chained) and returns exactly the slices it logs |
| CsprngLemmas.RandomBytesOk | fast_uuid.c:2156-2169 | the same for fast_uuid_random_bytes and its bypass of the buffer |
| CsprngLemmas.RandFailsIff | fast_uuid.c:661-676 | a draw fails if and only if the OS fails a call it makes |
| CsprngLemmas.RandomBytesFailsIff | fast_uuid.c:2156-2169 | the same for fast_uuid_random_bytes, which also refuses sizes outside 1 to 2^24 |
| CsprngLemmas.KeyBytesAreNeverServed | fast_uuid.c:303-310 | no served byte comes from one of the two cipher inputs its source's successor key comes from |
| CsprngLemmas.SuccessorKeyBlocks | fast_uuid.c:303-310 | those two inputs are the ones just past the last block the output touches |
| CsprngLemmas.SinceSeedBound | fast_uuid.c:628-646 | between two reseeds at most 65535 + 8192 bytes are drawn |
| SeedBudget.SeedOutlives64K | SECURITY.md:23-24 | a concrete run draws 73727 bytes from one seed |
| SeedBudget.FillBudgetIff | fast_uuid.c:628-646 | a whole fill, however long, stays within 64 KiB of each seed if and only if it starts with a reseed, starts at a multiple of 8192, or ends within 64 KiB |
| SeedBudget.RandBudgetIff | fast_uuid.c:661-676 | the same for fu_rand, of the bytes it takes from the generator: none, a chunk, or all |
| SeedBudget.RandomBytesBudgetIff | fast_uuid.c:2156-2169 | the same for fast_uuid_random_bytes and its bypass |
| Reachable.RunBudget | SECURITY.md:23-24 | a run whose draws past the buffer are multiples of 8192 bytes never takes more than 64 KiB from one seed, forks and failures included |
| Reachable.SizeBudgetIff | SECURITY.md:23-24 | all runs that otherwise take whole chunks and may draw n bytes keep 64 KiB, given the AES backend and an OS that answers, if and only if fast_uuid_random_bytes(n) takes whole chunks |
| CsprngLemmas.ForkOk | fast_uuid.c:706-729 | the fork handler restores the module-start state, keeps the invariant, and key and counter of the child's first source, whether reached by fu_rand or by fast_uuid_random_bytes, are the OS answer obtained after the fork |
| Xoshiro.NextIsBijective | fast_uuid.c:687-691 | the xoshiro step is a bijection on 256-bit states and reaches zero only from zero |
| Xoshiro.ScrambleIsInjective | fast_uuid.c:687 | different state words give different output words |
| Xoshiro.ReferenceOutputs | fast_uuid.c:687-691 | from the state (1, 2, 3, 4) step and scrambler give the reference outputs of xoshiro256** |
| Layout.V7Order | fast_uuid.c:933-942 | memcmp on version 7 bytes is the order of time key and rand_b as one number |
| Layout.V6SortsByTime | fast_uuid.c:889-898 | version 6 bytes sort by timestamp whatever follows |
| Layout.V6Timestamp | fast_uuid.c:891-898 | the version 6 layout keeps all 60 bits and the version |
| Layout.V1Timestamp | fast_uuid.c:777-785 | the version 1 layout keeps all 60 bits and the version |
| Layout.V2Visible | fast_uuid.c:914-928 | after the overwrites exactly the upper 28 timestamp bits show |
| Layout.V2ReadsBack | fast_uuid.c:914-928 | identifier, domain, version, variant and node of version 2 read back |
| Layout.OrderedRoundTrip | compat/src/Codec/OrderedTimeCodec.php:20-46 | encoding succeeds exactly on version 1 and decoding undoes it |
| Layout.OrderedRoundTripBack | compat/src/Codec/OrderedTimeCodec.php:30-46 | encoding undoes decoding |
| Layout.OrderedSortsByTime | compat/src/Codec/OrderedTimeCodec.php:12-17 | memcmp on encodings is timestamp order whenever timestamps differ |
| Layout.OrderedValue | compat/src/Codec/OrderedTimeCodec.php:20-28 | an encoding begins with version and timestamp, most significant first, and ends with the last eight bytes unchanged |
| Generators.UnixNanosExact | fast_uuid.c:815-833 | the overflow guard rejects exactly the readings whose nanoseconds do not fit 64 bits |
| Generators.SetVersionKeepsRest | fast_uuid.c:737-746 | stamping a version sets version and variant and keeps the other 122 bits |
| Contents.V4Call | fast_uuid.c:742-746 | version 4 is 16 drawn bytes, stamped, and fails only with the draw |
| Contents.V4FastCall | fast_uuid.c:748-755 | uuid_v4_fast is two successive output words, stamped; an unseeded state is first seeded from 32 drawn bytes, and a failed draw leaves it zero and unseeded |
| Contents.SeedShows | fast_uuid.c:682-686 | the seeded state is the 32 drawn bytes in memory order, or the one fixed state if they are all zero |
| Contents.LowestFirst | fast_uuid.c:752 | words are stored lowest byte first |
| Contents.V7AtCall | fast_uuid.c:989-994 | explicit version 7 shows the milliseconds and fraction given, with rand_b the eight drawn bytes cut to 62 bits |
| Contents.V7Call | fast_uuid.c:961-987 | a live call at a new reading shows floor(ns * 4096 / 10^6) over a freshly drawn rand_b; any other adds the three drawn bytes plus one to time key and rand_b as one number, or fails without moving either |
| Contents.V7BatchCall | fast_uuid.c:1887-1898 | a batch is that many single calls, and is refused outside 1 to 100000 |
| Contents.TailShown | fast_uuid.c:758-773 | clock sequence and node are the ones supplied or, bit by bit, drawn bytes, the multicast bit aside |
| Contents.GregCall | fast_uuid.c:844-906 | version 1 or 6 shows its reading, or the mark plus one if that is not past it; the mark moves also when the draw fails, and nothing else does |
| Contents.TicksOfReading | fast_uuid.c:815-842 | ticks are counted from 141427 days before 1970 and rounded down, and the nanoseconds are exact |
| Contents.V2Call | fast_uuid.c:914-928 | version 2 shows identifier, domain, node and upper clock sequence, and the upper 28 bits of its reading, or the visible mark plus one when both fields are supplied and the reading is not past it |
| Contents.BytesCall | fast_uuid.c:2156-2169 | the bytes returned are exactly the slices logged as served; a failed call serves none |
| Contents.ForkForgets | fast_uuid.c:706-729 | but for the history, the child starts as a fresh process does, every field zero, unseeded and spent |
| Contents.ChildFirstV4Fast | fast_uuid.c:717-723 | the child's first uuid_v4_fast, whatever it ran before, comes from a state seeded with slices of sources the child opened |
| Contents.ChildFirstV7 | fast_uuid.c:724-726 | the child's first live version 7 call shows its own reading over a fresh rand_b |
| Runs.IncrementAdds | fast_uuid.c:944-959 | fu_v7_increment is exact addition of 1..2^24 on (time key, rand_b), failing only on a failed draw or at 122 bits |
| Runs.GregFields | fast_uuid.c:758-785 | supplied node and clock sequence are kept, a random node is multicast, the timestamp shown is the new mark |
| Runs.RunRises | fast_uuid.c:844-987 | in every run without a fork the ranks of each family, versions 1 and 6 interleaved included, rise strictly from the old mark to the new, whatever calls and failures come between |
| Runs.GregRunSorted | README.md:97 | versions 1 and 6 interleaved, every version 1 converted: strictly increasing under memcmp, so a converted UUID never equals another or a native version 6 |
| Runs.V7RunSorted | README.md:99 | version 7 single and batch output is strictly increasing under memcmp over every run |
| Runs.V6RunSorted | fast_uuid.c:889-906 | version 6 output is strictly increasing under memcmp over every run, whatever the nodes |
| Runs.V1RunDistinct | README.md:97 | version 1 output never repeats with fixed node and clock sequence, and its ordered-time encodings sort in generation order |
| Runs.V2RunDistinct | README.md:98 | version 2 with node and clock sequence supplied never repeats |
| Runs.ForkRepeats | README.md:97 | after a fork the child repeats the parent's version 1 UUID at the same reading: the absence of forks cannot be dropped |
| Reachable.RunHealthy | fast_uuid.c:619-755 | every reachable state, forks and failures included, keeps the CSPRNG invariant and a nonzero seeded xoshiro state |
| Reachable.ChildRunIsApart | fast_uuid.c:694-729 | in every run of a forked child, nothing served comes from a source opened before the fork, and the first source opened after it is OS output obtained after it |
| Reachable.RunNeverReuses | fast_uuid.c:301-314 | in every run no random byte is served twice, no OS answer used twice, no served byte shares a cipher input with a successor key, and the reseed bound holds |
| Reachable.BatchIsSingles | fast_uuid.c:2094-2125 | a batch of n equals n single calls at one reading: same UUIDs, draws and state, and the same prefix when draw i fails |
| Reachable.TimeKeyIsFloor | fast_uuid.c:978-980 | milliseconds and fraction together are floor(ns * 4096 / 10^6) |
| Reachable.V7ShowsTheClock | fast_uuid.c:961-987 | a version 7 call never shows a time before its reading, shows a new reading exactly, and a failure changes no counter |
| Reachable.TiesCarryRarely | fast_uuid.c:944-959 | m ties move the time key by at most 1 + floor(m / 2^38), a batch at most by one |
| Reachable.RunDrift | fast_uuid.c:961-987 | over a run the time key leads the highest clock key by at most 1 + floor(asked / 2^38) |
| Reachable.RunMark | fast_uuid.c:844-879 | after a run the mark of versions 1 and 6, and the visible mark of version 2, are the mark sequences of the readings of their calls |
| Reachable.MarkClosedForm | fast_uuid.c:844-879 | such a mark is the maximum of last + n and every reading plus the calls since |
| Reachable.MarkIsLeast | fast_uuid.c:844-879 | the marks are the least strictly rising sequence dominating the clock |
| Reachable.GregFailsIff | fast_uuid.c:844-858 | the mark step fails if and only if the clock does or 60 bits are used up, and then moves nothing |
| Reachable.V2FailsIff | fast_uuid.c:864-879 | the same for the 28 visible bits of version 2 |
| Reachable.GregExhaustedForGood | fast_uuid.c:844-858 | once 60 bits are used up, no run without a fork moves the mark or emits a version 1 or 6 UUID |
| Reachable.V2ExhaustedForGood | fast_uuid.c:864-879 | the same for version 2 with node and clock sequence supplied |
| Engine.ModuleGlobals.constructor | fast_uuid.c:2302-2308 | the fresh globals are the initial state, all zero, the buffer spent |
| Engine.ModuleGlobals.FillFromDrbg | fast_uuid.c:628-646 | the loop does what the fill function says, also into the serving buffer itself |
| Engine.ModuleGlobals.Rand | fast_uuid.c:661-676 | fu_rand on arrays is the modelled draw, and zeroes dst on failure |
| Engine.ModuleGlobals.RandomBytes | fast_uuid.c:2156-2169 | fast_uuid_random_bytes is the modelled draw |
| Engine.ModuleGlobals.XsNext | fast_uuid.c:680-692 | in-place seeding and step are the modelled ones |
| Engine.ModuleGlobals.AtforkChild | fast_uuid.c:706-729 | the wiped globals are the modelled fork state, every array zero and every flag and mark cleared |
| Engine.ModuleGlobals.GregMonotonic | fast_uuid.c:844-858 | the mark field moves as modelled |
| Engine.ModuleGlobals.V2Monotonic | fast_uuid.c:864-879 | the visible mark field moves as modelled |
| Engine.ModuleGlobals.LayTail | fast_uuid.c:758-773 | the three draw patterns for node and clock sequence are the modelled ones |
| Engine.ModuleGlobals.V7Increment | fast_uuid.c:944-959 | the in-place increment is the modelled one |
| Engine.ModuleGlobals.GenV7 | fast_uuid.c:975-987 | single generation is the modelled one |
| Engine.ModuleGlobals.GenV7Batch | fast_uuid.c:2096-2125 | the batch loop with its counter in locals is the modelled batch |
| Engine.ModuleGlobals.Handle | fast_uuid.c:1994-2169 | any call on the object changes state and returns as one step of the run model |
| Engine.ModuleGlobals.HandleAll | fast_uuid.c:1994-2169 | any run on the object returns the outcomes and leaves the state of the run model; without a fork the version 7 and 6 UUIDs it returns are sorted under memcmp and versions 1 and 2 do not repeat |
| Decimal.ToDecimal | fast_uuid.c:1036-1049 | in-place long division writes the canonical numeral of the 16 bytes and stays inside its 40-byte buffer |
| Decimal.FromDecimal | fast_uuid.c:1051-1062 | accepts exactly the canonical numerals below 2^128 and leaves their value in the 16 bytes |
| Decimal.DecimalIsBijective | fast_uuid.c:1036-1062 | the two are inverse between all UUIDs and the accepted numerals |
| Decimal.AtMost39Digits | fast_uuid.c:1038-1053 | a 128-bit number has at most 39 digits |
| PackV7.PackDecimalSeconds | compat/src/UuidFactory.php:496-539 | terminates, accepts exactly what fits 48 bits, returns the number big-endian, every intermediate 32-bit |
| PackV7.PackMillisecondsValue | compat/src/UuidFactory.php:541-555 | the limb packer returns seconds * 1000 + milliseconds big-endian |
| PackV7.FieldsAgree | fast_uuid.c:1517-1536 | C and the PHP route for overriding DateTime classes accept the same instants and put the same six bytes first |
| PackV7.SixBytesAgree | compat/src/UuidFactory.php:496-555 | any six bytes that hold the milliseconds big-endian are those of the limb packer and of the C layout |
| PackV7.BuiltInBytes | compat/src/UuidFactory.php:441-486 | the PHP route for built-in DateTime objects, through decimal text, accepts what C accepts and puts the same six bytes first |
| PackV7.IntFieldsAgree | fast_uuid.c:1509-1515 | the same for integer milliseconds, with fraction zero |
| LocalId.LocalIdsAgree | compat/src/UuidFactory.php:419-432 | the textual range test of PHP and strtoull in C accept exactly the canonical numerals below 2^32, with one value |
| TimeCodec.TicksExact | fast_uuid.c:1646-1655 | fromDateTime gives the exact tick count since 141427 days before 1970 when that lies in 0..2^60-1, and fails otherwise, no intermediate leaving 64 bits |
| TimeCodec.DateTimeRoundTrip | fast_uuid.c:1724-1745 | decoding its result gives the same seconds and microseconds, before 1970 too |
| TimeCodec.LiveClockReadsBack | fast_uuid.c:837-858 | a clock past the mark is read back from versions 1 and 6 to the microsecond |
| TimeCodec.DecodesIff | fast_uuid.c:1724-1755 | exactly versions 1, 2, 6 and 7 of the RFC variant decode, version 2 to its visible part |
| TimeCodec.MillisIsFloor | fast_uuid.c:1724-1782 | microseconds and milliseconds of versions 1, 2 and 6 are the mathematical floor, also when negative |
| TimeCodec.ExplicitKeyIsLive | fast_uuid.c:1529-1535 | milliseconds and fraction are floor(instant * 4096 / 1000), the key a live call takes at that instant |
| TimeCodec.FieldsOrder | fast_uuid.c:1529-1535 | milliseconds and 12-bit fraction are ordered and distinct as the microsecond instants are |
| TimeCodec.ExplicitV7Order | fast_uuid.c:933-942 | explicit version 7 bytes sort as their instants whatever the random part |
| TimeCodec.ExplicitV7Decodes | fast_uuid.c:1746-1752 | decoding gives the instant truncated to milliseconds |
| TimeCodec.TimestampsAgree | compat/src/Rfc4122/Fields.php:88-109 | getTimestamp denotes the ticks the C decoder rebuilds, for versions 1, 2 and 6 |
| Fields.TimestampValue | compat/src/Rfc4122/Fields.php:88-109 | the 15 hex digits denote the timestamp of each version, 7 included |
| Fields.SlicesMatchLayouts | compat/src/Rfc4122/UuidV6.php:35-42 | slicing hex sends the C layout of version 1 to the C layout of version 6 |
| Fields.ConversionsAreInverse | compat/src/Rfc4122/UuidV6.php:18-42 | the two conversions are inverse on UUIDs of their versions |
| Fields.ConversionKeepsTime | compat/src/Rfc4122/UuidV6.php:18-42 | both keep timestamp, clock sequence and node and set the version, on all inputs |
| Hex.BuildTable | fast_uuid.c:2327-2330 | the table built at module start spells every byte |
| Hex.HexScalar | fast_uuid.c:156-159 | the table loop writes the two digits of each byte |
| Hex.VectorIsScalar | fast_uuid.c:163-190 | the SSSE3 and NEON formatters write what the table loop writes, on every input |
| Hex.ParseUuid | fast_uuid.c:223-258 | the two-pass stripping loop and both branches compute the modelled parse |
| Hex.ParseOfFormat | fast_uuid.c:204-258 | parsing recovers the bytes from the canonical form and from bare hex |
| Hex.FormatOfParse | fast_uuid.c:204-258 | printing what was parsed lower-cases the canonical form |
| Hex.CaseInsensitive | fast_uuid.c:223-258 | letter case never changes a result |
| Hex.WrappedParses | fast_uuid.c:221-228 | every composition of two prefix-and-brace layers is recovered |
| Hex.CoreIff | fast_uuid.c:229-258 | without wrappers, exactly the canonical form and the bare hex of the result, in any letter case |
| Hex.ParseAcceptsIff | fast_uuid.c:223-258 | the parser yields b on exactly the two-layer compositions around the canonical form or bare hex of b in any letter case, so on at most 58 bytes |
| Hex.StripWrappers | compat/src/Validator/GenericValidator.php:61-76 | the loop with its cap computes two passes of the C stripping |
| Hex.ShortcutsAreSound | compat/src/Validator/NonstandardValidator.php:18-28 | the 36-byte shortcuts never change a verdict of either validator |
| Hex.NonstandardIff | compat/src/Validator/NonstandardValidator.php:18-28 | the lax validator accepts exactly what the C parser accepts in canonical form within 47 bytes |
| Hex.GenericIff | compat/src/Validator/GenericValidator.php:34-55 | the strict one also wants the nil bytes, or version 1 to 8 and the RFC variant |
| Hex.CapIsTooShort | compat/src/Validator/GenericValidator.php:57-65 | 54-byte texts the parser accepts are rejected by both validators |

## Left out

- AES rounds and key schedule: the cipher is any function, and the known-answer self-test is a finite test.
- Operating system and engine calls (getrandom, clocks, CPUID, atfork registration, DateTime objects, the Zend API): inputs or failures of the model. A failing php_random_bytes is taken to leave its destination alone.
- The Windows clock branch of fu_unix_nanos, and ZTS: one thread's globals are modelled.
- The ARM fu_aes_ctr, which has the contract of the x86 one and differs in intrinsics only.
- Version 4 batches: GetDraw stands for their draws, whose no-reuse is proved.
- Versions 3, 5 and 8, simple getters, GUID and COMB byte swaps, wrapper dispatch, argument parsing: single-branch code.
- Randomness quality, unpredictability, and uniqueness across processes.
- fu_v7_at_datetime with microseconds outside 0..999999, which only a foreign timelib state could hold.
- The generators fill UUID byte buffers in place in C; here they return byte strings, so writes past a buffer's end in the layout code are not modelled.
- v7TimestampBytes: its format and type checks on DateTime strings are taken as met.
- fu_parse on a byte above 127: such bytes are hex digits in neither model nor source, and are written as any other char.
- Big-endian hosts: memcpy between words and bytes, and the counter lane, are modelled lowest byte first.
