# frxETH multisig `addValidators` validation, modelled in Dafny

The frxETH operations script `validate-msig-add-validators` checks the Safe
multisig's queue of pending transactions before they are signed. It selects
the queued transactions that call `addValidators`, and it refuses any that are
not sent to the frxETH operator contract
`0xbAFA44EFE7901E04E39Dad13167D089C559c1138`. From the rest it collects the
validator public keys in their decoded `validatorArray` argument, each tagged
with its transaction's nonce. It then stops if any key occurs twice.
Otherwise it looks every key up in the frxETH validator registry. It reports
each key whose status is not `"uninitialized"`: as missing when the registry
has no usable status for it, and with its actual status otherwise.

The model lifts this out of the script's async body into a pure pipeline over
the three HTTP responses, which become inputs: the validator list, the queue
entries, and a map from transaction id to decoded call data (standing for the
per-transaction fetch). Instead of log lines the pipeline returns a
`Report`. The report holds the counts the script logs, the per-transaction
events (`WrongAddress(nonce, address)` or `Extracted(nonce, count)`), and the
outcome `DuplicateKeys | Issues(seq of Issue(key, nonce, Missing | WrongStatus(s))) | AllGood(n)`.

Files:

- `collections.dfy` (module `Collections`): `Filter` (JavaScript's `Array.prototype.filter`),
  `Dedupe` (`[...new Set(xs)]`, order of first insertion), `IsSubsequence`,
  `NoDuplicates`, and what the script relies on about them.
- `validate_msig.dfy` (module `ValidateMsig`): the data model, selection, the
  per-transaction guards, the extraction loop (`ExtractKeys`, a method with
  a loop, proved equal to `AllKeys`/`AllEvents`), duplicate detection, status
  lookup, the issue filter, the reporting loop (`ReportIssues`), the pure
  pipeline `Reconcile` with its imperative counterpart `Run`, and the
  properties of a run.

Where the code and its surrounding description differ, the model follows the
code:

- The type annotation at node-scripts/validate-msig-add-validators.ts:34 gives the
  parameter's `value` as one tuple `[string, string, string[]]`. The code at
  line 47 maps over it as an array of such tuples and takes each tuple's
  first field. The model follows that use: `value` is a sequence of
  `ValidatorArg`, and the key is its `publicKey` field.
- An issue is reported as missing when `!item.status` holds (line 75). This
  covers an absent status and also a status that is the empty string.

## Model

| member | source | states |
|---|---|---|
| `Collections.Filter` | node-scripts/validate-msig-add-validators.ts:22 | every element kept is in the input and satisfies the predicate, every qualifying input element is kept, and the result is no longer than the input |
| `Collections.FilterIsSubsequence` | node-scripts/validate-msig-add-validators.ts:71 | filtering keeps the input order (the result is a subsequence of the input) |
| `Collections.FilterCounts` | node-scripts/validate-msig-add-validators.ts:71 | each qualifying element occurs in the result exactly as often as in the input, and no other element occurs |
| `Collections.FilterEmpty` | node-scripts/validate-msig-add-validators.ts:73 | the filtered list is empty exactly when no element qualifies |
| `Collections.FilterAppend` | node-scripts/validate-msig-add-validators.ts:71 | filtering a concatenation is the concatenation of the filtered parts |
| `Collections.Dedupe` | node-scripts/validate-msig-add-validators.ts:56 | the `Set`-built list holds exactly the input's elements and is no longer than the input |
| `Collections.DedupeNoDuplicates` | node-scripts/validate-msig-add-validators.ts:56 | the de-duplicated list has no repeats |
| `Collections.DedupeIsFirstOccurrences` | node-scripts/validate-msig-add-validators.ts:56 | de-duplication keeps each element at its first occurrence: it equals the independent first-occurrence definition |
| `Collections.DedupeIsSubsequence` | node-scripts/validate-msig-add-validators.ts:56 | the de-duplicated list is in input order |
| `Collections.DedupeOfDistinct` | node-scripts/validate-msig-add-validators.ts:56 | a list without repeats is left unchanged |
| `Collections.DedupeLength` | node-scripts/validate-msig-add-validators.ts:56-58 | the de-duplicated list is as long as the input exactly when the input has no repeats |
| `Collections.DedupeIdempotent` | node-scripts/validate-msig-add-validators.ts:56 | de-duplicating twice equals de-duplicating once |
| `ValidateMsig.SelectSpec` | node-scripts/validate-msig-add-validators.ts:22 | selection is an order-preserving subsequence of the queue, holds only `addValidators` entries, and drops none of them, duplicates included |
| `ValidateMsig.WrongAddressGuard` | node-scripts/validate-msig-add-validators.ts:39-44 | a transaction to any other address contributes no key and logs exactly one mismatch with its nonce and actual address |
| `ValidateMsig.DecodeGuard` | node-scripts/validate-msig-add-validators.ts:46-50 | a correctly addressed transaction whose decoded method is not `addValidators` or whose first parameter is not `validatorArray` contributes and logs nothing |
| `ValidateMsig.ContributionShape` | node-scripts/validate-msig-add-validators.ts:46-49 | a contributing transaction appends one entry per array element, in array order, with the element's first field and the transaction's nonce, and logs that count |
| `ValidateMsig.AllKeysAppend` | node-scripts/validate-msig-add-validators.ts:31-52 | the candidate list of a concatenation of entries is the concatenation of their candidate lists (after one entry, processing continues with the next) |
| `ValidateMsig.AllEventsAppend` | node-scripts/validate-msig-add-validators.ts:31-52 | the same for the per-transaction log |
| `ValidateMsig.MismatchCount` | node-scripts/validate-msig-add-validators.ts:39-44 | the log has exactly as many address-mismatch errors as there are misdirected selected transactions |
| `ValidateMsig.AllKeysLength` | node-scripts/validate-msig-add-validators.ts:47-48 | the number of candidate keys is the sum of the contributing arrays' lengths |
| `ValidateMsig.ExtractKeys` | node-scripts/validate-msig-add-validators.ts:30-52 | the loop builds exactly the in-order concatenation of the contributions and of the per-transaction log |
| `ValidateMsig.DuplicateKeysIff` | node-scripts/validate-msig-add-validators.ts:56-58 | the length comparison detects duplicates exactly when two candidate entries share a key |
| `ValidateMsig.FindValidator` | node-scripts/validate-msig-add-validators.ts:67 | `find` returns the index of the first record with the key, or nothing when no record has it |
| `ValidateMsig.StatusOf` | node-scripts/validate-msig-add-validators.ts:67 | the status is absent exactly when no record has the key; otherwise it is the `statusCode` of the first record with the key |
| `ValidateMsig.StatusOfFirst` | node-scripts/validate-msig-add-validators.ts:67 | when the registry lists a key several times, the first record's status is the one used |
| `ValidateMsig.KeyStatuses` | node-scripts/validate-msig-add-validators.ts:65-69 | one status entry per candidate, in order, with the candidate's key and nonce and the key's registry status |
| `ValidateMsig.KeysWithIssuesSpec` | node-scripts/validate-msig-add-validators.ts:71-73 | the issue list is the order-preserving sublist of statuses other than present-and-`"uninitialized"`, with multiplicities kept, and is empty exactly when every status is `"uninitialized"` |
| `ValidateMsig.ClassifySpec` | node-scripts/validate-msig-add-validators.ts:75-79 | an issue is `Missing` exactly when the status is absent or empty, and `WrongStatus(s)` exactly when the status is a non-empty `s` |
| `ValidateMsig.ReportIssues` | node-scripts/validate-msig-add-validators.ts:74-80 | one report per key with an issue, in order, keeping key and nonce, `Missing` for an absent or empty status, and the actual status otherwise |
| `ValidateMsig.IssueListSpec` | node-scripts/validate-msig-add-validators.ts:71-80 | every status with an issue gets an error line, and every error line describes a status with an issue |
| `ValidateMsig.Run` | node-scripts/validate-msig-add-validators.ts:7-87 | the step-by-step run produces exactly the report of the pure pipeline `Reconcile` |
| `ValidateMsig.ReconcileCounts` | node-scripts/validate-msig-add-validators.ts:22-28 | at most all queue entries are selected, the key count is the sum of the array lengths, a good run counts every key, and there is one mismatch event per misdirected transaction |
| `ValidateMsig.DecideDuplicates` | node-scripts/validate-msig-add-validators.ts:56-60 | the run ends with `DuplicateKeys`, and no status is computed, exactly when two candidate keys coincide |
| `ValidateMsig.DecideAllGood` | node-scripts/validate-msig-add-validators.ts:83-85 | the run ends `AllGood` exactly when the keys are distinct and all registered as `"uninitialized"`, and then the count is the number of keys |
| `ValidateMsig.DecideIssues` | node-scripts/validate-msig-add-validators.ts:71-82 | a run ending in issues reports at least one; every key not registered as `"uninitialized"` is reported with its classification, and nothing else is reported |
| `ValidateMsig.ExampleRun` | node-scripts/validate-msig-add-validators.ts:46-84 | one validator `A` that is `"uninitialized"` and one correct `addValidators` transaction with nonce 7 adding `A` give the event `Extracted(7, 1)` and the outcome `AllGood(1)` |

## Left out

- node-scripts/logger.ts is not part of this model. It only writes to the console, reads the wall clock and colours its output through the `chalk` library.
- The HTTP GETs (lines 7-9, 13-20, 33-35) and their URLs: their responses are inputs. Network errors, non-2xx responses and malformed JSON are not modelled. In the script each of these is an unhandled rejection that ends the run.
- `Fetchable` is a precondition. It requires that every selected transaction's detail is in the input map, and that `parameters[0]` exists wherever its `name` is read (the address is right and the decoded method is `addValidators`). In the script a failure of either is a fatal exception, not a recoverable error.
- The text of the log lines. The model keeps what they report: the validator count (line 11), the number of `TRANSACTION` entries, the number of selected entries (lines 24-28), the per-transaction events, the key count (line 54) and the outcome.
- The nonce fallback `?? -1` at line 47. In the model every transaction has an integer nonce, so the fallback never applies.
- The `if (tx.transaction)` test at line 32 is modelled, but it always holds for selected entries.
- The address and method-name comparisons are exact, case-sensitive string equality, as `!==` and `===` are. No address checksum normalisation is modelled.
- The async structure and the order of the fetches. The model is sequential, as the script is.
