# Weighted round robin load balancing, modelled in Dafny

This project models the `weighted` policy of the CoreDNS `loadbalance` plugin
(`plugin/loadbalance/weighted.go`). It covers:

- the weight file's line grammar and its five errors;
- the reload step, which detects a change of contents, replaces the domain
  table, sorts each domain's weights, sums them into `wsum` and picks the
  first expected top IP;
- the randomized prefix-sum selector, and the deterministic selector the
  tests use;
- the reordering of a DNS answer, which puts the record carrying the
  expected top address first among the address records and then rebuilds
  the answer as CNAME, other, address and MX records.

The files:

- `wrappers.dfy` holds `Option`.
- `net.dfy` holds the values the plugin sees from the DNS library: an IP
  address as a canonical value, and a resource record as CNAME, A, AAAA, MX
  or other.
- `text.dfy` models the Go library text routines the parser relies on:
  `strings.TrimSpace`, `strings.Fields`, `unicode.IsSpace`,
  `bufio.ScanLines` and `strconv.ParseUint(s, 10, 8)`.
- `weights.dfy` holds the per-domain data (`weightItem` and `domain` of
  `plugin/loadbalance/handler.go`), weight sums, both selectors and the
  descending sort.
- `parser.dfy` gives the grammar of `parseWeights` as a fold over the lines
  of the file, with lemmas about ignored lines, errors and grouping.
- `reorder.dfy` holds the record buckets of `weightedRoundRobin`, the
  top-record search of `setTopRecord` and the rebuilt answer.
- `weighted.dfy` holds the class `WeightedRR` with its mutable domain table
  and digest, and the methods `parseWeights`, `readWeightFile`,
  `updateWeights`, `setTopRecord` and `weightedRoundRobin`.
- `scenarios.dfy` holds the weight files of `weighted_test.go`, worked
  through the model, and the deterministic selector sequences the tests
  assert.

Foreign behaviour enters as parameters:

- `net.ParseIP` is a function field `parseIP: string -> Option<IP>` given to
  the constructor, and `IP.Equal` is equality of `IP` values.
- The file read is a `FileRead` value: an open failure, a read failure or
  the contents, as characters.
- Addresses are canonical 16-octet values (`Net.IP`). The addresses of A and
  AAAA records are held in the same form, so `IP.Equal` is equality.
- The random generator is a `draw` parameter. `rn.Intn(wsum)` is `draw %
  wsum`.
- The md5 digest is the stored contents themselves, so equal digests mean
  equal contents.

Some choices where the code and its description differ, or where the code
leaves something open:

- The code accepts a weight of 0, because `ParseUint` accepts "0". The model
  accepts it too. The randomized selector never picks such an entry
  (`Weights.ZeroWeightNeverPicked`). The reconstructed deterministic
  selector puts it on top once per round (see "Left out").
- `sort.Slice` is not stable. The reload therefore promises only an order
  that does not increase, plus a permutation, and leaves ties open.
- A parse failure leaves the partly built, unsorted table in place, with its
  digest already stored. The model keeps both.
- `wsum` is used by `weighted.go` but is not a field of `domain` at
  `handler.go:35-39`. The model gives `Domain` a `wsum` field.
- The definition of the deterministic selector (`determininsticWRR`) is
  not part of this model. The selector is reconstructed from the sequences asserted at
  `weighted_test.go:290-300`: a cursor and a repeat counter.

## Model

| member | source | states |
|---|---|---|
| Text.TrimSpace | plugin/loadbalance/weighted.go:195 | the result is a slice of the line such that everything outside it is space, and it neither starts nor ends with a space |
| Text.TrimSpaceOfPadded | plugin/loadbalance/weighted.go:195 | trimming a word padded with spaces on both sides gives back exactly the word |
| Text.IsSpace | plugin/loadbalance/weighted.go:195-200 | the characters `unicode.IsSpace` accepts, which `TrimSpace` strips and `Fields` splits at: tab to carriage return, space, U+0085, U+00A0 and the other White_Space characters |
| Text.Fields | plugin/loadbalance/weighted.go:200 | every field is non-empty and space-free; there are no fields exactly when the text is all space |
| Text.Separators | plugin/loadbalance/weighted.go:200 | the text has one more run of spaces than fields; the runs are all space, and every inner run is non-empty |
| Text.FieldsRoundTrip | plugin/loadbalance/weighted.go:200 | every text is its runs of spaces interleaved with its fields, so the fields are its maximal non-space runs, in order |
| Text.FieldsOfInterleave | plugin/loadbalance/weighted.go:200 | conversely, any non-empty space-free words interleaved with runs of spaces (non-empty between words) have exactly those words as fields |
| Text.FieldsOfWord | plugin/loadbalance/weighted.go:200-202 | a single space-free word has itself as its only field |
| Text.FieldsOfPair | plugin/loadbalance/weighted.go:200-222 | two words separated by spaces split into exactly those two fields |
| Text.ScanLines | plugin/loadbalance/weighted.go:182-195 | no scanned line contains a newline |
| Text.ScanLinesStep | plugin/loadbalance/weighted.go:182-195 | a newline-ended line is scanned as that line with one trailing carriage return dropped, followed by the lines of the rest |
| Text.ScanLinesOfUnlines | plugin/loadbalance/weighted.go:182-195 | for any newline-ended lines followed by an unended last segment, the scan gives each line with one trailing carriage return dropped, then the last segment (also with its carriage return dropped) only when it is not empty |
| Text.Segments | plugin/loadbalance/weighted.go:182-195 | the text cut at its newlines: at least one segment, none containing a newline |
| Text.SegmentsRoundTrip | plugin/loadbalance/weighted.go:182-195 | joining the segments back with newlines gives the text |
| Text.ScanLinesBySegments | plugin/loadbalance/weighted.go:182-195 | the scan of every text is its newline-ended segments, each with one trailing carriage return dropped, plus the last segment when it is not empty |
| Text.ScanLinesCons | plugin/loadbalance/weighted.go:182-195 | a line without a newline or a trailing carriage return, followed by a newline, is scanned as itself, followed by the lines of the rest |
| Text.ParseUint8 | plugin/loadbalance/weighted.go:228-231 | succeeds exactly on a non-empty string of decimal digits whose value is at most 255, and then returns that value |
| Weights.Blank | plugin/loadbalance/weighted.go:216-221 | a new domain has no weights, no top IP, `wsum` 0 and a selector in its initial state (randomized exactly when `isRandom` is set), so it cannot select until weights are appended and reloaded |
| Weights.SumConcat | plugin/loadbalance/weighted.go:151-153 | the weight sum of a concatenation is the sum of the parts' sums |
| Weights.SumPermutation | plugin/loadbalance/weighted.go:146-153 | reordering the list leaves its weight sum unchanged, so sorting before summing does not change `wsum` |
| Weights.Pick | plugin/loadbalance/weighted.go:98-107 | the picked index lies in the list, and the draw falls in that entry's prefix-sum interval `[prefix(i), prefix(i) + value(i))` |
| Weights.PickInterval | plugin/loadbalance/weighted.go:97-109 | a draw picks entry `i` exactly when it lies in `[prefix(i), prefix(i) + value(i))` |
| Weights.PickCount | plugin/loadbalance/weighted.go:97-109 | of the `wsum` possible draws, exactly `value` of them pick each entry |
| Weights.ZeroWeightNeverPicked | plugin/loadbalance/weighted.go:97-109 | no draw picks an entry of weight 0 |
| Weights.SelectIndex | plugin/loadbalance/weighted.go:100-107 | the running prefix-sum loop stops at the picked index: the first entry whose prefix sum exceeds the draw |
| Weights.NextTop | plugin/loadbalance/weighted.go:97-109 | the next selector step keeps the weights, the sum and the selector kind, and always yields a top IP |
| Weights.NextTopIP | plugin/loadbalance/weighted.go:97-109 | drawing and then walking the list gives the domain that `NextTop` describes |
| Weights.RandomizedTopHasWeight | plugin/loadbalance/weighted.go:97-109 | the randomized selector's new top IP is the address of an entry with positive weight |
| Weights.CycleLength | plugin/loadbalance/weighted_test.go:290-300 | one round of the deterministic selector has as many places as the weight sum |
| Weights.DeterministicStep | plugin/loadbalance/weighted_test.go:290-300 | one deterministic step puts the address at its place in the round on top, and moves one place on, wrapping at the end of the round |
| Weights.Track | plugin/loadbalance/weighted_test.go:362-364 | after `m` steps from the initial state, the deterministic selector sits at place `m` counted round and round modulo the weight sum |
| Weights.DeterministicCycle | plugin/loadbalance/weighted_test.go:290-300 | from the initial state, step `q*wsum + k + 1` puts the `k`-th address of the round on top: each address `value` times in list order, repeated forever |
| Weights.InsertDesc | plugin/loadbalance/weighted.go:147-149 | inserting into a list ordered by non-increasing weight keeps it ordered and adds exactly the new item |
| Weights.SortByWeight | plugin/loadbalance/weighted.go:147-149 | the sorted list is ordered by non-increasing weight and is a permutation of the input |
| Weights.AccumulateWeights | plugin/loadbalance/weighted.go:151-153 | the summing loop adds the weight sum of the list to the starting `wsum` |
| Parser.Message | plugin/loadbalance/weighted.go:207-238 | each error's message starts with that error's headline ("Wrong domain name", "Wrong IP address", and so on) |
| Parser.ClassifyLine | plugin/loadbalance/weighted.go:195-201 | a line is skipped exactly when it is blank or starts with `#` after trimming. Otherwise its trimmed text's fields decide its kind, in both directions: one field is a header whose name is that field; two fields are an entry whose address and weight are those fields; more than two make the line malformed, carrying its trimmed text. A name or an address is non-empty, space-free and does not start with `#`; a weight is non-empty and space-free |
| Parser.Normalize | plugin/loadbalance/weighted.go:212-215 | the domain key ends in `.`; it is the name itself when that already ends in `.`, and otherwise the name with `.` appended |
| Parser.StepLine | plugin/loadbalance/weighted.go:194-239 | one line keeps the table made of blank domains with appended weights, and never removes a domain |
| Parser.ParseLines | plugin/loadbalance/weighted.go:191-240 | the scanner loop from an empty table: every domain in the result is a blank domain with appended weights (its other properties are the lemmas below) |
| Parser.FirstError | plugin/loadbalance/weighted.go:207-238 | the first offending line decides the result: its error, with the table as it stood before that line |
| Parser.ErrorRules | plugin/loadbalance/weighted.go:201-238 | the error of each rule, in source order: an IP as header is "Wrong domain name"; a bad address is "Wrong IP address"; then a bad weight is "Wrong weight value"; then no header seen yet is "Missing domain name"; any other field count is "Could not parse weight line" |
| Parser.NoCurrentDomain | plugin/loadbalance/weighted.go:233-235 | before any header line there is no current domain |
| Parser.IgnoredLinesChangeNothing | plugin/loadbalance/weighted.go:195-199 | dropping the lines that are blank or start with `#` after trimming leaves the parse result unchanged |
| Parser.CurrentHeaderIsHeader | plugin/loadbalance/weighted.go:216-221 | the last header's key is one of the header keys |
| Parser.NoEntriesWithoutHeader | plugin/loadbalance/weighted.go:233-236 | a key that no header line names has no entries |
| Parser.Grouping | plugin/loadbalance/weighted.go:191-236 | after a successful parse, the table has one domain per distinct normalised header, holding every entry written under that header anywhere in the file, in file order (a repeated header reuses its domain); the current domain is the last header |
| Reorder.Bucket | plugin/loadbalance/weighted.go:26-37 | a bucket holds only records of its kind, and is no longer than the input |
| Reorder.BucketConcat | plugin/loadbalance/weighted.go:26-37 | bucketing distributes over concatenation |
| Reorder.BucketsPartition | plugin/loadbalance/weighted.go:26-37 | the four buckets together hold exactly the records of the input |
| Reorder.Matches | plugin/loadbalance/weighted.go:64-78 | only an A or AAAA record can match, and only a set expected IP (a nil `topIP` equals no address) |
| Reorder.FirstMatch | plugin/loadbalance/weighted.go:60-84 | the index of the first address record carrying the expected top IP, or -1 exactly when none carries it |
| Reorder.FindTop | plugin/loadbalance/weighted.go:61-79 | the search loop over the address array returns that first matching index |
| Reorder.SwapToFront | plugin/loadbalance/weighted.go:86-89 | the chosen record moves to index 0; every other index except the chosen one keeps its record; the records are the same |
| Reorder.Split | plugin/loadbalance/weighted.go:22-37 | the bucketing loop yields the CNAME, address, MX and other buckets |
| Reorder.Arrange | plugin/loadbalance/weighted.go:44-47 | the first address slot of the rebuilt answer, right after the CNAME and other records, holds the chosen record |
| Reorder.ArrangeIsPermutation | plugin/loadbalance/weighted.go:44-47 | the rebuilt answer has the input's length and exactly the input's records |
| Reorder.ArrangeIsGrouped | plugin/loadbalance/weighted.go:44-47 | in the rebuilt answer the CNAMEs come first, then other records, then address records, then MX records |
| Reorder.ArrangeKeepsBuckets | plugin/loadbalance/weighted.go:44-47 | each bucket keeps its input order in the rebuilt answer, apart from the single swap, and the first address record is the chosen one |
| Weighted.Selectable | plugin/loadbalance/weighted.go:98 | whether a parsed domain's selector can run: a positive weight sum for `rn.Intn`, a non-empty list for the deterministic one |
| Weighted.SelectableReady | plugin/loadbalance/weighted.go:152-155 | a freshly parsed domain is selectable exactly when, once sorted and summed, it is ready for `nextTopIP` |
| Weighted.ReloadDomain | plugin/loadbalance/weighted.go:146-156 | one domain of the reload is sorted, summed, and given a top IP; when its selector cannot run (a zero `wsum`, which makes `rn.Intn` panic), that is reported and the domain stays sorted and summed without a top IP |
| Weighted.PassEnds | plugin/loadbalance/weighted.go:146-156 | once every domain has been visited, the reload is complete with outcome `Ok` |
| Weighted.WeightedRR.constructor | plugin/loadbalance/handler.go:25-33 | the new state has no digest and an empty domain table |
| Weighted.WeightedRR.ParseLine | plugin/loadbalance/weighted.go:195-239 | one scanner iteration changes the table and the current domain as the grammar step prescribes, or reports that step's error |
| Weighted.WeightedRR.ParseHeader | plugin/loadbalance/weighted.go:202-221 | the header branch: an IP is rejected; otherwise the normalised name becomes current, created blank if new |
| Weighted.WeightedRR.ParseEntry | plugin/loadbalance/weighted.go:222-236 | the address branch: the address is checked, then the weight, then a current domain must exist; then the item is appended to that domain |
| Weighted.WeightedRR.ParseWeights | plugin/loadbalance/weighted.go:189-247 | the table is whatever parsing the whole text yields (the partial table on failure), and the error is the first offending line's, if any |
| Weighted.WeightedRR.ReadWeightFile | plugin/loadbalance/weighted.go:162-186 | open and read errors change nothing; unchanged contents give "unchanged, no error" and touch nothing; new contents are digested before parsing and then parsed into the table |
| Weighted.WeightedRR.UpdateWeights | plugin/loadbalance/weighted.go:135-159 | errors and unchanged contents leave everything as it was; a parse failure leaves the parsed partial table; a successful parse is followed by the reload of every domain |
| Weighted.WeightedRR.ReloadAll | plugin/loadbalance/weighted.go:146-156 | on outcome `Ok` every parsed domain is sorted, summed and given its first top IP; otherwise a panic names a domain whose selector cannot run |
| Weighted.WeightedRR.SetTopRecord | plugin/loadbalance/weighted.go:51-94 | returns true exactly when the domain is known, has weights and one address record carries its top IP; on false nothing changes; on true the first such record is swapped to index 0 and only that domain's selector advances |
| Weighted.WeightedRR.WeightedRoundRobin | plugin/loadbalance/weighted.go:21-48 | the output is the input unchanged, with the table untouched, unless `setTopRecord` applies; then it is CNAME ++ other ++ address (top first) ++ MX; in every case it is a permutation of the input |
| Scenarios.OneDomainParse | plugin/loadbalance/weighted_test.go:17-31 | the one-domain file parses into one domain `w1,example.org.` with the entries in file order |
| Scenarios.OneDomainReload | plugin/loadbalance/weighted_test.go:23-31 | its reload orders the weights as `[(192.168.1.14, 20), (192.168.1.15, 10)]` with `wsum` 30, and the top is one of the two |
| Scenarios.MissingWeight | plugin/loadbalance/weighted_test.go:64-68 | an address line without weight is a one-field line that parses as an IP: "Wrong domain name" |
| Scenarios.MissingDomain | plugin/loadbalance/weighted_test.go:70-76 | an address line before any header: "Missing domain name", with an empty table |
| Scenarios.WrongIp | plugin/loadbalance/weighted_test.go:78-81 | address `192.168.1.300`: "Wrong IP address" |
| Scenarios.WrongWeight | plugin/loadbalance/weighted_test.go:83-86 | weight 300: "Wrong weight value" |
| Scenarios.RegionTwoSequence | plugin/loadbalance/weighted_test.go:290-298 | weights 2 and 1 put the first, first, second, first, first address on top |
| Scenarios.RegionOneSequence | plugin/loadbalance/weighted_test.go:293-299 | weights 3 and 2 put the first address on top three times, then the second |

## Left out

- `periodicWeightUpdate` (weighted.go:112-132) is left out: it is a goroutine with a ticker and a stop channel, which is concurrency and timing.
- The mutex (weighted.go:52-53, 137-138) is left out: each method is one atomic step.
- File I/O (weighted.go:163-175) is left out. `os.Open`, `io.ReadAll` and the tee reader become the `FileRead` value.
- md5 is not modelled. The digest is the stored contents, so collisions do not appear.
- The scanner's own error (weighted.go:242-244) is not modelled. It comes from a line longer than the scanner's buffer, which is library behaviour.
- `math/rand` is replaced by the `draw` parameter. Its distribution is not modelled; `Weights.PickCount` is the exact counting statement instead.
- The file is read as bytes and digested as bytes (weighted.go:172-182). The model takes the contents as decoded characters, so contents that are not valid UTF-8 are not modelled.
- Weights.DeterministicCycle: covers lists whose weights are all positive only. The reconstructed deterministic selector puts an entry of weight 0 on top once when its cursor reaches it, then moves on. How the test's own selector treats weight 0 cannot be known, since its definition is not part of this model.
- `print` (weighted.go:249-259) and the log messages are output only, and are left out.
- `setup.go` is not part of this model. This includes the directive parsing, the plugin registration and the start-up rule that tolerates `errOpen` when `reload` is not 0.
- `ServeDNS`, the response writer, the random-shuffle policy and the test helpers are left out: they are dispatch glue, or their code is not part of this model.
- Weighted.WeightedRR.ReloadAll: on a panic the contract says only that each other domain is either reloaded or untouched. Go's map iteration order is unspecified, so which domains were visited before the panic is not determined.
- Weighted.WeightedRR.UpdateWeights: inherits the same weaker statement about other domains in the panic case.
- The panic of `rn.Intn(0)` is modelled as the outcome `Panic(name)`, with the domain left without a top IP. It is reached by a header-only domain or an all-zero domain under the randomized selector. The process itself does not survive it.
- `wsum` is an unbounded `nat`. On 64-bit platforms Go's `uint` cannot overflow here, because it would take more than 7×10^16 entries.
- Weights.AccumulateWeights: does not model the 32-bit wrap-around of `wsum`. Where `uint` is 32 bits (386, arm), about 1.7×10^7 entries of weight 255 wrap the sum modulo 2^32; the model's sum keeps growing.
- Per-domain `*domain` pointers become values in the domain map. Aliasing between domains does not arise in the source, and is not modelled.
- The domain tables of the selector test (weighted_test.go:234-255) leave `wsum` at 0. The model's `Ready` requires `wsum` to be the weight sum; the scenarios use that value.
- The selector interface `topIPupdater` (handler.go:46-48) becomes the `Selector` variant. The two shown forms of `nextTopIP` disagree with each other, and the definitions of the tests' `randomizedWRR` and `determininsticWRR` are not part of this model.
- Weights.Blank: tying the selector kind to `isRandom` is the model's choice. weighted.go itself never reads `isRandom` and always calls the randomized `nextTopIP` (weighted.go:91, weighted.go:155), which runs `rn.Intn(int(d.wsum))`. As a consequence, a deterministic domain whose weights are all 0 is `Selectable` and reloads `Ok` in the model, while weighted.go panics in `rn.Intn(0)` for it. Weighted.ReloadDomain inherits this.
