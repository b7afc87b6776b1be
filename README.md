# tpmhbs core, modelled in Dafny

`tpmhbs` measures how fast a TPM computes SHA-256 (through TPM2_Hash) and turns
that rate into estimated key-generation and signing times for a catalog of
hash-based signature (HBS) parameter sets. This project models the discrete,
sequential logic of `main.go` and proves its properties:

- **Sort-key selection** (`SortKey`): the `sort_by` flag maps `name`, `keygen`,
  `signing`, `size` to the four orderings; any other value is a configuration
  error. The default is `keygen`.
- **Hash timer** (`HashTimer`): the block count is range-checked against
  [0, 16] before the device is used, and the buffer is `64 * count` zero bytes.
  The device and its clock are an input: a function from (call number,
  buffer) to the elapsed microseconds, or a failure.
- **Sampling loop** (`Throughput`): ten samples for each block count 0..16,
  summed into a 17-entry array in place and divided by ten. The first failing
  call ends the run, and nothing after it is sampled. The progress counter
  advances by the block count per sample and reaches the declared total
  `136 * 10`.
- **Catalog ordering** (`Catalog`): the comparator is modelled as written,
  including the `name` tie-break that compares a row's `W` with itself (so rows
  with equal names are never ordered). The in-place sort leaves the catalog
  sorted by the selected key and a permutation of what it was. The
  "Signatures" column `1 << H` is modelled on Go's `int` of a 64-bit platform.
- **Device identity** (`Identity`): `getCap` succeeds only when exactly one
  property comes back, and packs its value into 4 big-endian bytes. Decoding
  those bytes gives the value back. The revision splits into `major.minor`,
  and the model string is the four vendor strings appended in order. `getCap`
  does not compare the tag the TPM reports with the property it asked for; the
  model keeps that behaviour.
- **The run** (`Cli`): an unknown sort key is reported before the TPM is
  opened. The rest is identity, then sampling, then sorting, each stopping the
  run at its first error. Identity and sampling errors are wrapped in their
  own error kinds, as the messages of `mainErr` wrap them.

Where the code departs from what the tool evidently intends, the model follows the code:
- The code does not reject a non-positive regression slope. The regression is
  outside the model anyway.
- The `name` ordering keeps the self-comparison of `W` instead of choosing a
  tie-break.

## Model

| member | source | states |
|---|---|---|
| `SortKey.ParseSortBy` | main.go:36-47 | Succeeds exactly for "name", "keygen", "signing", "size"; the ordering chosen is the one that flag value names; any other string gives the unknown-sort_by error carrying that string |
| `SortKey.ParseFlagValue` | main.go:36-47 | Each of the four orderings is selected by its own flag value |
| `SortKey.DefaultIsKeygen` | main.go:22 | The default flag value "keygen" selects the keygen-work ordering |
| `HashTimer.HashInput` | main.go:154-157 | Error exactly when count < 0 or count > 16 (carrying the count); otherwise a buffer of exactly 64 * count bytes, all zero |
| `HashTimer.Hash` | main.go:153-172 | An out-of-range count fails before the device is consulted; otherwise the device is given the zero buffer of 64 * count bytes and the result is its elapsed time, or HashFailed when it fails |
| `Throughput.BlocksOfCall` | main.go:181-183 | The t-th call hashes n blocks with 10n <= t < 10n + 10: ten calls per size, sizes in increasing order |
| `Throughput.BlocksOfCallAt` | main.go:181-183 | The j-th sample (j < 10) of size n is call 10n + j, hashing n blocks |
| `Throughput.BlocksOfCallMonotone` | main.go:181 | Later calls never hash fewer blocks |
| `Throughput.BlocksOfCallMonotoneAll` | main.go:181 | A trace of the block counts of successive calls is non-decreasing |
| `Throughput.ProgressWithinSize` | main.go:182-188 | Each completed sample at size n adds n to the progress counter |
| `Throughput.ProgressOfSizes` | main.go:178-188 | After all samples of sizes 0..n-1 the counter is 10 * (0 + ... + n-1) |
| `Throughput.ProgressReachesTotal` | main.go:177-179 | After all 170 samples the counter equals the declared total 136 * 10 |
| `Throughput.SampleStep` | main.go:183-188 | A successful sample adds its elapsed time to the running sum at its size and its block count to the progress counter |
| `Throughput.GetHashPerformance` | main.go:175-191 | Succeeds iff all 170 calls succeed; then 17 entries, entry n the mean of the ten samples at n, 170 calls made in non-decreasing size order, progress at the declared total. On failure the last call made is the first failing one, every earlier one succeeded, and progress counts only completed samples |
| `Throughput.SampleOneSize` | main.go:182-190 | One pass of the inner loop: on success `results[n]` becomes the mean of the ten samples at n and no other entry changes; on failure it stops at the failing call |
| `Catalog.NameLess` | main.go:220 | Go's `<` on names: a proper prefix sorts before the longer name, and otherwise the first differing character decides |
| `Catalog.NameLessIrreflexive` | main.go:220 | No name sorts before itself |
| `Catalog.NameLessTransitive` | main.go:220 | Lexicographic name order is transitive |
| `Catalog.NameLessTotal` | main.go:220 | Of two different names, one sorts before the other |
| `Catalog.NameLessAsymmetric` | main.go:220 | Of two names, at most one sorts before the other |
| `Catalog.Less` | main.go:214-229 | The `sort.Slice` comparator: when it puts x before y, x's selected key is strictly smaller than y's (names: lexicographically smaller), so x is in order before y and y is not in order before x |
| `Catalog.LessIrreflexive` | main.go:216-218 | The comparator is irreflexive, and under `name` it is false both ways for equal names, because the tie-break compares W with itself |
| `Catalog.LessTransitive` | main.go:214-229 | The comparator is transitive under every ordering |
| `Catalog.NotLessIsInOrder` | main.go:214-229 | "y does not sort before x" holds exactly when x's key is at most y's (names: equal or lexicographically smaller) |
| `Catalog.LeastFrom` | main.go:214-229 | Returns an index in the unsorted suffix that no row of that suffix sorts before |
| `Catalog.SortCatalog` | main.go:213-229 | After the in-place sort, the catalog is non-decreasing in the selected key for every pair of rows, and is a permutation of the catalog before |
| `Catalog.KeygenOrderOfTwo` | main.go:225-226 | Sorted by keygen work, two schemes with different keygen work come out in one order only: the cheaper first |
| `Catalog.Wrap64` | main.go:241 | The result is a signed 64-bit value congruent to the input modulo 2^64 |
| `Catalog.NumSignatures` | main.go:241 | `1 << H` on a 64-bit int: the signed 64-bit value congruent to 2^H modulo 2^64 |
| `Catalog.NumSignaturesValue` | main.go:241 | `1 << H` on a 64-bit int is 2^H for H <= 62, the minimum int64 at H = 63, and 0 for H >= 64 |
| `Catalog.NumSignaturesDoubles` | main.go:241 | One more tree level doubles the signature count while it fits |
| `Catalog.RowOf` | main.go:238-245 | The table row of a scheme carries its name, W and signature size, and its signature count is exactly 2^H while H <= 62 |
| `Catalog.PrintEstimates` | main.go:212-246 | Sorts the catalog (sorted, permutation) and lays out one row per scheme in sorted order |
| `Identity.PutUint32` | main.go:100-101 | The encoding is exactly 4 bytes. Its contents follow from `Identity.DecodeEncode` and the byte positions `Identity.Uint32` states: bytes 0 to 3 are the bytes of the value from the most to the least significant (big-endian) |
| `Identity.Uint32` | main.go:122 | `binary.BigEndian.Uint32`: bytes 0, 1, 2 and 3 are, in that order, the most to the least significant byte of the value |
| `Identity.DecodeEncode` | main.go:100-101 | Big-endian decoding of the encoding gives the value back (the round trip main.go:122 relies on) |
| `Identity.EncodeDecode` | main.go:100-101 | Encoding the value of 4 bytes gives the same 4 bytes back |
| `Identity.GetCap` | main.go:83-103 | Succeeds iff the response is a properties list with exactly one entry; then 4 bytes whose big-endian value is that entry's value; each failure kind gives its own error |
| `Identity.SplitRevision` | main.go:148 | minor < 100 and 100 * major + minor == revision |
| `Identity.SplitRevisionUnique` | main.go:148 | That split is the only one with minor < 100 |
| `Identity.InfoOf` | main.go:139-150 | The identity from successful reads: the 4 manufacturer bytes; a 16-byte model whose consecutive 4-byte blocks are vendor strings 1 to 4; 8 firmware bytes, version word 1 then word 2; the revision split so that 100 * major + minor is the decoded revision and minor < 100 |
| `Identity.GetTpmInfo` | main.go:105-151 | Reads the eight properties in order; succeeds iff all can be read, and then the model is vendor strings 1-4 concatenated (16 bytes), the revision is split from the decoded revision bytes; on failure the last property read is the first failing one, its error is returned, and nothing after it is read |
| `Cli.Run` | main.go:32-66 | Succeeds exactly when the sort key is known, the TPM opens, every identity property can be read and all 170 hash calls succeed. An unknown sort key fails with no device request; a TPM that cannot be opened likewise. An identity failure is wrapped as the TPM-info error around the error of the first unreadable property, after reading every property up to and including it and before any hash call; a hash failure is wrapped as the performance error around HashFailed, after exactly the calls up to the first failing one, all earlier ones having succeeded. Hashing starts only after all identity reads succeed. The catalog is untouched on every failure. On success the report holds the identity, the 17 means, and one row per scheme of the catalog sorted as selected |

## Left out

- TPM transport and command execution (`getTPM`, `GetCapability.Execute`, `tpm2.Hash.Execute`): foreign I/O. The device is a function parameter. Whether the TPM opens is a boolean parameter.
- The wall clock and `duration.Microseconds()`: the elapsed microseconds are the device function's answer.
- The linear regression (`sajari/regression`) and `1000000000 / r.Coeff(1)`: a third-party library and floating-point division. The model stops at the 17 averages the regression is trained on.
- GetHashPerformance: the averages are exact real numbers; the float64 rounding of the running sums and of the division by 10 is not modelled.
- The estimated durations `KeygenWork / hps * 1e9` and their `time.Duration` conversion: floating-point numerics. Table rows carry name, W, signature count and signature size only.
- Progress-bar drawing, table rendering, CSV writing and the CSV file name: presentation and file I/O. The progress counter itself is modelled.
- The `%x` rendering of the firmware words and the `%v` / `string(...)` rendering of the other identity fields, plus `tpmInfo.String`: library formatting. The model keeps the raw bytes and the (major, minor) pair.
- `flag.Parse`, `main`, `os.Exit` and `defer tpm.Close()`: CLI plumbing and resource release.
- SortCatalog: Go's `sort.Slice` (pdqsort, not stable) is not visible. The model sorts by selection sort and states only sortedness and permutation, so the arrangement of rows with equal keys is not determined.
- `nistApprovedParameters`: the catalog data is not part of this model. It is an input array of schemes.
- The comparator's final `return false` for an unknown ordering cannot be reached: orderings are a datatype with four values.
- Catalog fields are unbounded integers (their Go types are not part of this model). `H` is a natural number, so the panic Go raises on a negative shift count is not modelled.
- Catalog.NumSignatures: Go's `int` is taken to be 64 bits wide. On a 32-bit platform `1 << H` wraps from H = 31 on; that case is not modelled.
- Catalog.NameLess: names are taken to be valid UTF-8, where comparing code points agrees with Go's byte-wise string comparison; for byte strings that are not valid UTF-8 the order is not modelled.
- `Identity.Uint32` requires at least 4 bytes, where Go's `binary.BigEndian.Uint32` panics on a shorter slice.
