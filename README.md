# govc `pool.info` — a Dafny model

`govc pool.info POOL...` prints what one or more vSphere resource pools are
allocated and are using. The command resolves each POOL argument to resource
pool objects with the inventory finder. It then fetches the properties of all
of them in one batched call to the property collector. Finally it prints, for
each pool, a `Name:` line followed by four CPU lines and four memory lines
(usage, shares, reservation, limit).

This project models that command (`govc/pool/info.go`) in Dafny and proves
what it promises:

- `wrappers.dfy`, module `Wrappers`: `Option` and `Result`.
- `pool_types.dfy`, module `PoolTypes`: the records the command reads
  (`ResourcePool`, `ResourceAllocationInfo`, `SharesInfo`,
  `ResourceUsage`), managed object references, finder objects, `InfoResult`
  and the command's errors. Go's `int32`/`int64` fields are subset types of
  those widths. `ExpandableReservation`, a `*bool`, is an `Option<bool>`.
- `decimal.dfy`, module `Decimal`: Go's `%d` on integers (`IntToDecimal`),
  a decimal reader (`ParseInt`), the proof that reading the text back
  gives the number, and the proof that `%d`'s spelling (no leading zeros,
  no `-0`) is the only one with that value.
- `pool_format.dfy`, module `PoolFormat`: `writeInfo` (`InfoLines` and the
  four value texts) and `infoResult.Write` (`PoolBlock`, `Report`, the
  method `Write`).
- `pool_info.dfy`, module `PoolInfo`: `info.Run`, as a method, with the
  loop over the arguments as the method `Resolve` and the loop over the
  objects in `Run` itself, beside the specification functions
  `ResolveAll`, `Lookups` and `RefsOf`.

The collaborators are parameters of `Run`:

- `clientErr` and `finderErr` are the errors `cmd.Client()` and
  `cmd.Finder()` may return.
- `answers` holds what the finder's `ResourcePoolList` answers, one entry
  per lookup in argument order (`answers[i]` for `args[i]`). A repeated
  pattern therefore may be answered differently each time, as a remote
  lookup may.
- `retrieve` is the property collector's `Retrieve`.

`Run` returns its result and the log of the collaborator calls it made
(`Connect`, `OpenFinder`, `Find(pattern)`, `Retrieve(refs, props)`). This is
how "no remote call" and "exactly one retrieval" are stated.

A printed line is modelled as a string without its trailing newline. The tab
between label and value is kept. The usage percentage is
`100.0 * float64(OverallUsage) / float64(MaxUsage)` printed with `%0.1f`. It
is given as text by a caller-supplied function `percent: ResourceUsage ->
string`.

Three points where the code's behaviour is easy to misread:

- Shares levels print in lower case (`custom (2000)`, `normal`). The code
  prints the string value of `types.SharesLevel`, not a capitalised name.
- A `MaxUsage` of 0 is not guarded in the code. The percentage is then NaN
  or +Inf, not `0.0`. The model leaves the percentage text open and claims
  no 0% fallback.
- `ExpandableReservation` is dereferenced without a check, with no default
  value. The model makes its presence a precondition (`Printable`,
  `ReservationText`).

## Model

| member | source | states |
|---|---|---|
| `Decimal.NatToDecimal` | govc/pool/info.go:143 | the `%d` digits of a natural number are non-empty and start with a digit, which is `0` exactly for zero, and then `0` is the whole text |
| `Decimal.NatToDecimalParses` | govc/pool/info.go:143 | reading the digits back gives the number (proved by induction on the number) |
| `Decimal.NatToDecimalNumeral` | govc/pool/info.go:143 | the digits of every natural number are digits only, with no leading zero |
| `Decimal.NumeralUnique` | govc/pool/info.go:143 | a numeral without leading zeros that reads as n is exactly the digits of n: the spelling is unique |
| `Decimal.IntToDecimal` | govc/pool/info.go:143 | `%d` text is non-empty, starts with `-` exactly for negative values and otherwise with a digit |
| `Decimal.IntToDecimalParses` | govc/pool/info.go:143 | reading the `%d` text back gives the integer, so no value is clamped or loses its sign |
| `Decimal.IntToDecimalCanonical` | govc/pool/info.go:143 | `%d` text is canonical: a numeral without leading zeros, or `-` and a non-zero such numeral (never `-0`) |
| `Decimal.CanonicalUnique` | govc/pool/info.go:143 | the `%d` text of i is the only canonical text that reads as i, so with the round trip it fixes Go's spelling exactly |
| `PoolFormat.LevelName` | govc/pool/info.go:144 | `%s` of a shares level is a non-empty lower-case word, and `custom` exactly for the custom level |
| `PoolFormat.BoolText` | govc/pool/info.go:145 | `%v` of the flag is `true` exactly when it is true and `false` exactly when it is false |
| `PoolFormat.UsageText` | govc/pool/info.go:143 | the Usage value text; its own contract is empty, and what it states is the row of `UsageTextDecodes` |
| `PoolFormat.UsageTextDecodes` | govc/pool/info.go:143 | the Usage value is the overall usage, decoded back exactly, then the unit, then the percentage text in parentheses followed by `%` |
| `PoolFormat.SharesText` | govc/pool/info.go:132-144 | the Shares value starts with the level name and is longer than it exactly for `custom`; for any other level it is the level name alone, so the count is never read |
| `PoolFormat.SharesTextCount` | govc/pool/info.go:135-137 | for `custom`, the value is `custom (`, then the stored share count (decoded back exactly), then `)` |
| `PoolFormat.LimitText` | govc/pool/info.go:133-146 | the Limit value is `unlimited` exactly when the limit is -1 |
| `PoolFormat.LimitTextDecodes` | govc/pool/info.go:139-141 | any limit other than -1, negative or not, is printed as its own value followed by the unit, with no clamping |
| `PoolFormat.ReservationText` | govc/pool/info.go:145 | the Reservation value text, defined only when the flag is present; what it states is the row of `ReservationTextDecodes` |
| `PoolFormat.ReservationTextDecodes` | govc/pool/info.go:145 | the Reservation value is the reservation, decoded back exactly, then the unit, then ` (expandable=true)` or ` (expandable=false)` from the flag, which must be present |
| `PoolFormat.InfoLines` | govc/pool/info.go:129-147 | `writeInfo` gives four lines labelled `  <dim> Usage:`, `Shares:`, `Reservation:`, `Limit:` in that order, each label followed by a tab |
| `PoolFormat.PoolBlock` | govc/pool/info.go:119-124 | one pool gives exactly nine lines |
| `PoolFormat.PoolBlockLines` | govc/pool/info.go:120-123 | line k of a pool's block is the k-th fixed label (`Name:`, four `CPU` labels, four `Mem` labels), a tab, and the k-th value: the name, then CPU usage, shares, reservation and limit in MHz, then the same for memory in MB |
| `PoolFormat.FlatMapLength` | govc/pool/info.go:119-124 | with nine-line blocks, the concatenation has nine lines per element (proved by induction) |
| `PoolFormat.FlatMapAt` | govc/pool/info.go:119-124 | with nine-line blocks, the block of element i sits at lines 9i to 9i+8 of the concatenation (proved by induction) |
| `PoolFormat.Report` | govc/pool/info.go:116-127 | the report of the fetched pools has nine lines per pool |
| `PoolFormat.ReportBlock` | govc/pool/info.go:116-127 | the report has 9 lines per pool, and lines 9i to 9i+8 are exactly the block of pool i: every pool once, in record order |
| `PoolFormat.Write` | govc/pool/info.go:116-127 | the loop over the pools emits exactly the report of the pools |
| `PoolInfo.PropertyPaths` | govc/pool/info.go:73-85 | the path list is empty ("all properties") exactly in JSON mode; otherwise it is `name`, `config.cpuAllocation`, `config.memoryAllocation`, `runtime.cpu`, `runtime.memory`, in that order |
| `PoolInfo.ResolveAll` | govc/pool/info.go:87-93 | resolution succeeds only when every lookup succeeded |
| `PoolInfo.Lookups` | govc/pool/info.go:87-91 | the number of lookups is at most one per argument and zero only without arguments; every lookup but the last succeeded, and when it stops early the last one failed |
| `PoolInfo.Finds` | govc/pool/info.go:87-88 | one lookup per pattern, in pattern order |
| `PoolInfo.ResolveAllAppend` | govc/pool/info.go:87-93 | resolving `a + b` resolves `a`, then `b` only if `a` succeeded; the result is the concatenation in argument order with duplicates kept |
| `PoolInfo.LookupsAppend` | govc/pool/info.go:87-92 | the lookups for `a + b` are those for `a`, followed by those for `b` only when `a` succeeded |
| `PoolInfo.ResolveSnoc` | govc/pool/info.go:87-92 | one more lookup after a resolved prefix: its error is the result, or its objects are appended; exactly one lookup is added |
| `PoolInfo.ResolveStop` | govc/pool/info.go:89-91 | after the first failing lookup, nothing further is looked up and the result is that failure |
| `PoolInfo.ResolveOne` | govc/pool/info.go:88-92 | resolving one argument is one lookup, and its answer is the result |
| `PoolInfo.ResolveAllFirstError` | govc/pool/info.go:87-91 | if lookup k is the first that fails, resolution fails with that same error, after exactly k+1 lookups |
| `PoolInfo.ResolveAllFails` | govc/pool/info.go:87-91 | conversely, when resolution fails, its error is that of the last lookup made, and every earlier lookup succeeded |
| `PoolInfo.ResolveAllSucceeds` | govc/pool/info.go:87-93 | resolution succeeds exactly when every lookup succeeds, and then every argument is looked up once |
| `PoolInfo.Resolve` | govc/pool/info.go:87-93 | the loop over the arguments yields exactly `ResolveAll` of the answers and makes the `Find` calls of the first `Lookups` arguments, in order |
| `PoolInfo.RefsOf` | govc/pool/info.go:96-99 | one reference per object, with the same length and order |
| `PoolInfo.Run` | govc/pool/info.go:55-109 | no arguments: `ErrHelp` and no calls at all. A client or finder error is returned unchanged. Otherwise the first lookup error is returned with no retrieval. When nothing resolved, no retrieval is made and the result is empty. Otherwise the log ends with exactly one `Retrieve`, of `RefsOf` of all resolved objects with the mode's paths. Its error is returned unchanged; on success the result holds the fetched pools and the resolved objects |

## Left out

- Client and session setup, and the finder's acquisition (info.go:60-70): only their errors are modelled, as the inputs `clientErr` and `finderErr`.
- The finder's pattern matching and the property collector's decoding of the property bag into `mo.ResourcePool` (info.go:88, 101-102) are remote library code. They are the input `answers` (one answer per lookup, in order) and the abstract function `retrieve`; the model assumes nothing about how many pools `retrieve` returns.
- `context.TODO()`: it carries no behaviour here.
- `cmd.WriteResult(&res)` (info.go:108) dispatches to JSON serialisation or to `Write`. Its dispatch and the JSON output are library code and are not modelled. `Run` returns the `InfoResult` that would be handed to it, and `Write` is modelled on its own.
- The usage percentage (info.go:131) is float arithmetic printed with `%0.1f`. It is an opaque text given by `percent`. Its NaN or infinity when `MaxUsage` is 0 is therefore not modelled either.
- The tab writer (info.go:117, 126): column alignment is cosmetic; `Flush`, and the error it may return, are output I/O. Lines keep the literal tab and drop the newline.
- Command registration and help text: `init`, `Register`, `Process`, `Usage`, `Description` (info.go:39-53).
- The vim25 type definitions are not part of this model. `Shares` is taken to be always present in an allocation; only `ExpandableReservation` is optional.
- `PoolFormat.PoolBlock`: its own contract states only the line count. The content of each line is stated by the lemma `PoolFormat.PoolBlockLines`. The nine lines are nine strings, one per `Fprintf`: a pool name that contains a newline prints more physical lines (info.go:120), and the model does not split lines on embedded newlines.
- `PoolInfo.Run`, `PoolInfo.Resolve`: require one answer per argument (`|answers| == |args|`), since every argument may be looked up. The lookups after the first failure are never made, and their answers are not read.
- `PoolFormat.InfoLines`: its own contract states the four labels and their order, not the values after the tabs. Those values are stated for both dimensions by `PoolFormat.PoolBlockLines`, together with the `*Decodes` and `SharesTextCount` lemmas.
- `PoolFormat.UsageText`, `PoolFormat.ReservationText`: no contract of their own; their meaning is stated by `UsageTextDecodes` and `ReservationTextDecodes`.
- `Decimal.IntToDecimal`: its own contract states only the sign and the first character. The exact spelling is stated by `IntToDecimalCanonical` with `CanonicalUnique`, and the value by `IntToDecimalParses`.
