/** The reconciliation performed by the frxETH multisig validation script:
    pending Safe transactions that call `addValidators` are decoded, the
    validator public keys they would add are collected, checked for
    duplicates and looked up in the validator registry, and every key whose
    registry status is not `"uninitialized"` is reported.

    The three HTTP responses the script fetches become inputs: the validator
    list, the queue entries, and a map from transaction id to decoded call
    data. Instead of log lines the model returns a `Report`. */
module ValidateMsig {
  import opened Collections

  /** The only contract an `addValidators` transaction may be sent to. */
  const ExpectedTo: string := "0xbAFA44EFE7901E04E39Dad13167D089C559c1138"
  const AddValidators: string := "addValidators"
  const ValidatorArray: string := "validatorArray"
  const Uninitialized: string := "uninitialized"
  const TransactionType: string := "TRANSACTION"

  // ---------------------------------------------------------------------
  // Data model
  // ---------------------------------------------------------------------

  /** A record of the validator registry. */
  datatype Validator = Validator(publicKey: string, statusCode: string)

  /** The transaction detail a queue entry may carry: its id, nonce
      (`executionInfo.nonce`), called method (`txInfo.methodName`) and
      destination (`txInfo.to.value`). */
  datatype Transaction = Transaction(id: string, nonce: int, methodName: string, to: string)

  /** An entry of the queue; `kind` is the entry's `type` field. */
  datatype QueueEntry = QueueEntry(kind: string, transaction: Option<Transaction>)

  /** One element of the decoded `validatorArray` argument. Only its first
      component, the public key, is read. */
  datatype ValidatorArg = ValidatorArg(publicKey: string, second: string, third: seq<string>)

  datatype Parameter = Parameter(name: string, value: seq<ValidatorArg>)

  /** The `dataDecoded` part of a transaction's detail. */
  datatype DecodedCall = DecodedCall(methodName: string, parameters: seq<Parameter>)

  /** A key some transaction would add, with that transaction's nonce. */
  datatype CandidateKey = CandidateKey(key: string, nonce: int)

  /** A candidate key joined with its registry status (`None` when absent). */
  datatype KeyStatus = KeyStatus(key: string, status: Option<string>, nonce: int)

  datatype IssueKind = Missing | WrongStatus(status: string)

  /** One per-key error line of the final report. */
  datatype Issue = Issue(key: string, nonce: int, kind: IssueKind)

  /** What the extraction loop logs for one transaction: a wrong destination
      (an error), or the number of keys it contributed (an info line). */
  datatype TxEvent = WrongAddress(nonce: int, address: string) | Extracted(nonce: int, count: nat)

  /** How the run ends. */
  datatype Outcome = DuplicateKeys | Issues(issues: seq<Issue>) | AllGood(count: nat)

  /** Everything the script reports, in place of its log lines. */
  datatype Report = Report(
    validatorCount: nat,
    transactionCount: nat,
    selectedCount: nat,
    events: seq<TxEvent>,
    keyCount: nat,
    outcome: Outcome)

  // ---------------------------------------------------------------------
  // Selection
  // ---------------------------------------------------------------------

  predicate IsAddValidators(e: QueueEntry) {
    e.transaction.Some? && e.transaction.value.methodName == AddValidators
  }

  predicate IsTransaction(e: QueueEntry) {
    e.kind == TransactionType
  }

  /** The queue entries whose transaction calls `addValidators`. */
  function Select(results: seq<QueueEntry>): seq<QueueEntry> {
    Filter(IsAddValidators, results)
  }

  /** Selection keeps queue order, keeps only `addValidators` entries, and
      drops none of them (each with its full multiplicity). */
  lemma SelectSpec(results: seq<QueueEntry>)
    ensures IsSubsequence(Select(results), results)
    ensures forall i :: 0 <= i < |Select(results)| ==> IsAddValidators(Select(results)[i])
    ensures forall e :: multiset(Select(results))[e] ==
                        if IsAddValidators(e) then multiset(results)[e] else 0
  {
    FilterIsSubsequence(IsAddValidators, results);
    FilterCounts(IsAddValidators, results);
  }

  // ---------------------------------------------------------------------
  // Per-transaction extraction
  // ---------------------------------------------------------------------

  /** What the script needs of the fetched call data for entry `e`: the
      detail of its transaction was fetched, and `parameters[0]` exists
      wherever its `name` is read (the address is right and the decoded
      method is `addValidators`). */
  predicate Fetchable(e: QueueEntry, calls: map<string, DecodedCall>) {
    e.transaction.Some? ==>
      var tx := e.transaction.value;
      tx.id in calls &&
      (tx.to == ExpectedTo && calls[tx.id].methodName == AddValidators ==>
         |calls[tx.id].parameters| > 0)
  }

  predicate AllFetchable(s: seq<QueueEntry>, calls: map<string, DecodedCall>) {
    forall i :: 0 <= i < |s| ==> Fetchable(s[i], calls)
  }

  /** The decode guard: the call is `addValidators` and its first argument
      is the `validatorArray`. */
  predicate Decodes(call: DecodedCall)
    requires call.methodName == AddValidators ==> |call.parameters| > 0
  {
    call.methodName == AddValidators && call.parameters[0].name == ValidatorArray
  }

  /** Entry `e` passes both guards and so contributes keys. */
  predicate Contributes(e: QueueEntry, calls: map<string, DecodedCall>)
    requires Fetchable(e, calls)
  {
    e.transaction.Some? && e.transaction.value.to == ExpectedTo &&
    Decodes(calls[e.transaction.value.id])
  }

  /** `value.map((x) => ({ key: x[0], nonce }))`. */
  function KeyEntries(value: seq<ValidatorArg>, nonce: int): seq<CandidateKey> {
    seq(|value|, k requires 0 <= k < |value| => CandidateKey(value[k].publicKey, nonce))
  }

  /** The decoded array of a contributing entry. */
  function ArgsOf(e: QueueEntry, calls: map<string, DecodedCall>): seq<ValidatorArg>
    requires Fetchable(e, calls) && Contributes(e, calls)
  {
    calls[e.transaction.value.id].parameters[0].value
  }

  /** The keys entry `e` appends to the candidate list. */
  function Contribution(e: QueueEntry, calls: map<string, DecodedCall>): seq<CandidateKey>
    requires Fetchable(e, calls)
  {
    if Contributes(e, calls) then KeyEntries(ArgsOf(e, calls), e.transaction.value.nonce)
    else []
  }

  /** The lines the extraction loop logs for entry `e`. */
  function EventsOf(e: QueueEntry, calls: map<string, DecodedCall>): seq<TxEvent>
    requires Fetchable(e, calls)
  {
    match e.transaction
    case None => []
    case Some(tx) =>
      if tx.to != ExpectedTo then [WrongAddress(tx.nonce, tx.to)]
      else if Decodes(calls[tx.id]) then [Extracted(tx.nonce, |ArgsOf(e, calls)|)]
      else []
  }

  /** The address guard: a transaction sent elsewhere contributes no key and
      logs exactly one mismatch naming its nonce and actual destination. */
  lemma WrongAddressGuard(e: QueueEntry, calls: map<string, DecodedCall>)
    requires Fetchable(e, calls)
    requires e.transaction.Some? && e.transaction.value.to != ExpectedTo
    ensures Contribution(e, calls) == []
    ensures EventsOf(e, calls) == [WrongAddress(e.transaction.value.nonce, e.transaction.value.to)]
  {
  }

  /** The decode guard: a correctly addressed transaction whose call is not
      `addValidators(validatorArray, ...)` contributes and logs nothing. */
  lemma DecodeGuard(e: QueueEntry, calls: map<string, DecodedCall>)
    requires Fetchable(e, calls)
    requires e.transaction.Some? && e.transaction.value.to == ExpectedTo
    requires !Decodes(calls[e.transaction.value.id])
    ensures Contribution(e, calls) == [] && EventsOf(e, calls) == []
  {
  }

  /** A contributing transaction appends one entry per array element, in
      array order, each carrying the element's first field and the
      transaction's nonce, and logs that count. */
  lemma ContributionShape(e: QueueEntry, calls: map<string, DecodedCall>)
    requires Fetchable(e, calls) && Contributes(e, calls)
    ensures |Contribution(e, calls)| == |ArgsOf(e, calls)|
    ensures forall k :: 0 <= k < |ArgsOf(e, calls)| ==>
              Contribution(e, calls)[k] ==
              CandidateKey(ArgsOf(e, calls)[k].publicKey, e.transaction.value.nonce)
    ensures EventsOf(e, calls) == [Extracted(e.transaction.value.nonce, |ArgsOf(e, calls)|)]
  {
  }

  // ---------------------------------------------------------------------
  // The extraction loop
  // ---------------------------------------------------------------------

  /** The candidate list after processing `s`: the in-order concatenation
      of the entries' contributions. */
  function AllKeys(s: seq<QueueEntry>, calls: map<string, DecodedCall>): seq<CandidateKey>
    requires AllFetchable(s, calls)
  {
    if |s| == 0 then [] else AllKeys(s[..|s| - 1], calls) + Contribution(s[|s| - 1], calls)
  }

  /** The extraction loop's log after processing `s`. */
  function AllEvents(s: seq<QueueEntry>, calls: map<string, DecodedCall>): seq<TxEvent>
    requires AllFetchable(s, calls)
  {
    if |s| == 0 then [] else AllEvents(s[..|s| - 1], calls) + EventsOf(s[|s| - 1], calls)
  }

  /** The number of array elements entry `e` supplies. */
  function ArgCount(e: QueueEntry, calls: map<string, DecodedCall>): nat
    requires Fetchable(e, calls)
  {
    if Contributes(e, calls) then |ArgsOf(e, calls)| else 0
  }

  function TotalArgCount(s: seq<QueueEntry>, calls: map<string, DecodedCall>): nat
    requires AllFetchable(s, calls)
  {
    if |s| == 0 then 0 else ArgCount(s[0], calls) + TotalArgCount(s[1..], calls)
  }

  lemma AllFetchableAppend(a: seq<QueueEntry>, b: seq<QueueEntry>, calls: map<string, DecodedCall>)
    requires AllFetchable(a, calls) && AllFetchable(b, calls)
    ensures AllFetchable(a + b, calls)
  {
    forall i | 0 <= i < |a + b| ensures Fetchable((a + b)[i], calls) {
      if i < |a| { assert (a + b)[i] == a[i]; } else { assert (a + b)[i] == b[i - |a|]; }
    }
  }

  lemma AllFetchablePrefix(s: seq<QueueEntry>, n: nat, calls: map<string, DecodedCall>)
    requires AllFetchable(s, calls) && n <= |s|
    ensures AllFetchable(s[..n], calls)
  {
    forall i | 0 <= i < n ensures Fetchable(s[..n][i], calls) { assert s[..n][i] == s[i]; }
  }

  /** Processing one batch of entries after another yields the same
      candidate list as processing them together: each entry's
      contribution is independent of the others. */
  lemma {:induction false} AllKeysAppend(a: seq<QueueEntry>, b: seq<QueueEntry>, calls: map<string, DecodedCall>)
    requires AllFetchable(a, calls) && AllFetchable(b, calls)
    ensures AllFetchable(a + b, calls)
    ensures AllKeys(a + b, calls) == AllKeys(a, calls) + AllKeys(b, calls)
  {
    AllFetchableAppend(a, b, calls);
    if |b| > 0 {
      var b' := b[..|b| - 1];
      AllFetchablePrefix(b, |b| - 1, calls);
      AllKeysAppend(a, b', calls);
      var last := b[|b| - 1];
      assert (a + b)[..|a + b| - 1] == a + b';
      assert (a + b)[|a + b| - 1] == last;
      calc {
        AllKeys(a + b, calls);
        AllKeys(a + b', calls) + Contribution(last, calls);
        (AllKeys(a, calls) + AllKeys(b', calls)) + Contribution(last, calls);
        AllKeys(a, calls) + (AllKeys(b', calls) + Contribution(last, calls));
        AllKeys(a, calls) + AllKeys(b, calls);
      }
    } else {
      assert a + b == a;
    }
  }

  /** The same for the log: the events of a batch follow those of the
      batch before it. */
  lemma {:induction false} AllEventsAppend(a: seq<QueueEntry>, b: seq<QueueEntry>, calls: map<string, DecodedCall>)
    requires AllFetchable(a, calls) && AllFetchable(b, calls)
    ensures AllFetchable(a + b, calls)
    ensures AllEvents(a + b, calls) == AllEvents(a, calls) + AllEvents(b, calls)
  {
    AllFetchableAppend(a, b, calls);
    if |b| > 0 {
      var b' := b[..|b| - 1];
      AllFetchablePrefix(b, |b| - 1, calls);
      AllEventsAppend(a, b', calls);
      var last := b[|b| - 1];
      assert (a + b)[..|a + b| - 1] == a + b';
      assert (a + b)[|a + b| - 1] == last;
      calc {
        AllEvents(a + b, calls);
        AllEvents(a + b', calls) + EventsOf(last, calls);
        (AllEvents(a, calls) + AllEvents(b', calls)) + EventsOf(last, calls);
        AllEvents(a, calls) + (AllEvents(b', calls) + EventsOf(last, calls));
        AllEvents(a, calls) + AllEvents(b, calls);
      }
    } else {
      assert a + b == a;
    }
  }

  predicate IsWrongAddress(ev: TxEvent) {
    ev.WrongAddress?
  }

  /** Entry `e` carries a transaction sent to some other address. */
  predicate SentElsewhere(e: QueueEntry) {
    e.transaction.Some? && e.transaction.value.to != ExpectedTo
  }

  /** The log holds one address-mismatch error per misdirected transaction,
      and no other. */
  lemma {:induction false} MismatchCount(s: seq<QueueEntry>, calls: map<string, DecodedCall>)
    requires AllFetchable(s, calls)
    ensures |Filter(IsWrongAddress, AllEvents(s, calls))| == |Filter(SentElsewhere, s)|
  {
    if |s| > 0 {
      var init, last := s[..|s| - 1], s[|s| - 1];
      AllFetchablePrefix(s, |s| - 1, calls);
      MismatchCount(init, calls);
      FilterAppend(IsWrongAddress, AllEvents(init, calls), EventsOf(last, calls));
      var evs := EventsOf(last, calls);
      if SentElsewhere(last) {
        assert Filter(IsWrongAddress, evs) == evs;
      } else {
        assert evs == [] || (|evs| == 1 && !IsWrongAddress(evs[0]));
        assert Filter(IsWrongAddress, evs) == [] by {
          if evs != [] {
            assert evs[..0] == [];
          }
        }
      }
    }
  }

  /** The candidate list is as long as the sum of the contributing arrays'
      lengths. */
  lemma {:induction false} AllKeysLength(s: seq<QueueEntry>, calls: map<string, DecodedCall>)
    requires AllFetchable(s, calls)
    ensures |AllKeys(s, calls)| == TotalArgCount(s, calls)
  {
    if |s| > 0 {
      var rest := s[1..];
      assert AllFetchable(rest, calls) by {
        forall i | 0 <= i < |rest| ensures Fetchable(rest[i], calls) { assert rest[i] == s[i + 1]; }
      }
      assert AllFetchable([s[0]], calls) by { assert [s[0]][0] == s[0]; }
      AllKeysAppend([s[0]], rest, calls);
      assert [s[0]] + rest == s;
      assert [s[0]][..0] == [];
      AllKeysLength(rest, calls);
    }
  }

  /** The loop at the heart of the script: walk the selected entries and
      accumulate the candidate keys and the per-transaction log. */
  method ExtractKeys(selected: seq<QueueEntry>, calls: map<string, DecodedCall>)
      returns (keys: seq<CandidateKey>, events: seq<TxEvent>)
    requires AllFetchable(selected, calls)
    ensures keys == AllKeys(selected, calls)
    ensures events == AllEvents(selected, calls)
  {
    keys, events := [], [];
    for i := 0 to |selected|
      invariant AllFetchable(selected[..i], calls)
      invariant keys == AllKeys(selected[..i], calls)
      invariant events == AllEvents(selected[..i], calls)
    {
      assert selected[..i + 1][..i] == selected[..i];
      assert selected[..i + 1][i] == selected[i];
      assert AllFetchable(selected[..i + 1], calls);
      var entry := selected[i];
      if entry.transaction.Some? {
        var tx := entry.transaction.value;
        var call := calls[tx.id];
        if tx.to != ExpectedTo {
          events := events + [WrongAddress(tx.nonce, tx.to)];
          continue;
        }
        if call.methodName == AddValidators && call.parameters[0].name == ValidatorArray {
          var txKeys := KeyEntries(call.parameters[0].value, tx.nonce);
          keys := keys + txKeys;
          events := events + [Extracted(tx.nonce, |txKeys|)];
        }
      }
    }
    assert selected[..|selected|] == selected;
  }

  // ---------------------------------------------------------------------
  // Duplicate detection
  // ---------------------------------------------------------------------

  function Keys(c: seq<CandidateKey>): (r: seq<string>)
    ensures |r| == |c|
  {
    seq(|c|, i requires 0 <= i < |c| => c[i].key)
  }

  /** The script's test: the `Set` of keys is smaller than the list. */
  predicate HasDuplicateKeys(c: seq<CandidateKey>) {
    |Dedupe(Keys(c))| != |c|
  }

  /** The test fires exactly when two candidate entries share a key. */
  lemma DuplicateKeysIff(c: seq<CandidateKey>)
    ensures HasDuplicateKeys(c) <==> exists i, j :: 0 <= i < j < |c| && c[i].key == c[j].key
  {
    DedupeLength(Keys(c));
    assert forall i :: 0 <= i < |c| ==> Keys(c)[i] == c[i].key;
  }

  // ---------------------------------------------------------------------
  // Status lookup
  // ---------------------------------------------------------------------

  /** `validators.find((f) => f.publicKey === key)`, as an index. */
  function FindValidator(vs: seq<Validator>, key: string): (r: Option<nat>)
    ensures r.Some? ==> r.value < |vs| && vs[r.value].publicKey == key &&
                        forall j :: 0 <= j < r.value ==> vs[j].publicKey != key
    ensures r.None? ==> forall j :: 0 <= j < |vs| ==> vs[j].publicKey != key
  {
    if |vs| == 0 then None
    else if vs[0].publicKey == key then Some(0)
    else match FindValidator(vs[1..], key)
      case None => None
      case Some(i) => Some(i + 1)
  }

  /** The status of `key`: that of the first registry record with this
      public key, or `None` when there is none. */
  function StatusOf(vs: seq<Validator>, key: string): (r: Option<string>)
    ensures r.None? <==> forall j :: 0 <= j < |vs| ==> vs[j].publicKey != key
    ensures r.Some? ==> exists i :: 0 <= i < |vs| && vs[i].publicKey == key &&
                          vs[i].statusCode == r.value &&
                          forall j :: 0 <= j < i ==> vs[j].publicKey != key
  {
    match FindValidator(vs, key)
    case None => None
    case Some(i) => Some(vs[i].statusCode)
  }

  /** The registry knows at most one status per key even when it lists the
      key twice: the first record wins. */
  lemma StatusOfFirst(vs: seq<Validator>, key: string, i: nat)
    requires i < |vs| && vs[i].publicKey == key
    requires forall j :: 0 <= j < i ==> vs[j].publicKey != key
    ensures StatusOf(vs, key) == Some(vs[i].statusCode)
  {
  }

  /** `publicKeysToAdd.map((x) => ({ key, status, nonce }))`. */
  function KeyStatuses(vs: seq<Validator>, c: seq<CandidateKey>): (r: seq<KeyStatus>)
    ensures |r| == |c|
    ensures forall i :: 0 <= i < |c| ==>
              r[i].key == c[i].key && r[i].nonce == c[i].nonce &&
              r[i].status == StatusOf(vs, c[i].key)
  {
    seq(|c|, i requires 0 <= i < |c| => KeyStatus(c[i].key, StatusOf(vs, c[i].key), c[i].nonce))
  }

  // ---------------------------------------------------------------------
  // Issues
  // ---------------------------------------------------------------------

  /** `f.status !== 'uninitialized'`; a missing status is an issue too. */
  predicate HasIssue(ks: KeyStatus) {
    ks.status != Some(Uninitialized)
  }

  function KeysWithIssues(st: seq<KeyStatus>): seq<KeyStatus> {
    Filter(HasIssue, st)
  }

  /** The issue list is the order-preserving sublist of the statuses that
      are not `"uninitialized"`, and it is empty exactly when every status
      is `"uninitialized"`. */
  lemma KeysWithIssuesSpec(st: seq<KeyStatus>)
    ensures IsSubsequence(KeysWithIssues(st), st)
    ensures forall i :: 0 <= i < |KeysWithIssues(st)| ==> HasIssue(KeysWithIssues(st)[i])
    ensures forall x :: multiset(KeysWithIssues(st))[x] == if HasIssue(x) then multiset(st)[x] else 0
    ensures |KeysWithIssues(st)| == 0 <==> forall i :: 0 <= i < |st| ==> st[i].status == Some(Uninitialized)
  {
    FilterIsSubsequence(HasIssue, st);
    FilterCounts(HasIssue, st);
    FilterEmpty(HasIssue, st);
  }

  /** `!item.status`: an absent status and the empty string both read as
      missing; any other status is reported as it is. */
  function Classify(status: Option<string>): IssueKind {
    match status
    case None => Missing
    case Some(s) => if s == "" then Missing else WrongStatus(s)
  }

  function IssueOf(ks: KeyStatus): Issue {
    Issue(ks.key, ks.nonce, Classify(ks.status))
  }

  lemma ClassifySpec(status: Option<string>)
    ensures Classify(status) == Missing <==> status == None || status == Some("")
    ensures forall s :: Classify(status) == WrongStatus(s) <==> status == Some(s) && s != ""
  {
  }

  /** The reporting loop: one issue line per key with an issue, in order. */
  method ReportIssues(withIssues: seq<KeyStatus>) returns (issues: seq<Issue>)
    ensures |issues| == |withIssues|
    ensures forall i :: 0 <= i < |withIssues| ==>
              issues[i].key == withIssues[i].key && issues[i].nonce == withIssues[i].nonce &&
              (issues[i].kind == Missing <==> withIssues[i].status == None || withIssues[i].status == Some("")) &&
              (issues[i].kind.WrongStatus? ==> withIssues[i].status == Some(issues[i].kind.status))
    ensures forall i :: 0 <= i < |withIssues| ==> issues[i] == IssueOf(withIssues[i])
  {
    issues := [];
    for i := 0 to |withIssues|
      invariant |issues| == i
      invariant forall k :: 0 <= k < i ==> issues[k] == IssueOf(withIssues[k])
    {
      var item := withIssues[i];
      if item.status == None || item.status == Some("") {
        issues := issues + [Issue(item.key, item.nonce, Missing)];
      } else {
        issues := issues + [Issue(item.key, item.nonce, WrongStatus(item.status.value))];
      }
    }
  }

  // ---------------------------------------------------------------------
  // The whole run
  // ---------------------------------------------------------------------

  /** The fetch of every selected transaction's detail succeeds. */
  predicate Fetched(results: seq<QueueEntry>, calls: map<string, DecodedCall>) {
    forall i :: 0 <= i < |results| && IsAddValidators(results[i]) ==> Fetchable(results[i], calls)
  }

  lemma FetchedSelected(results: seq<QueueEntry>, calls: map<string, DecodedCall>)
    requires Fetched(results, calls)
    ensures AllFetchable(Select(results), calls)
  {
    var sel := Select(results);
    forall i | 0 <= i < |sel| ensures Fetchable(sel[i], calls) {
      var j :| 0 <= j < |results| && results[j] == sel[i];
    }
  }

  /** The candidate keys of a run. */
  function CandidateKeys(results: seq<QueueEntry>, calls: map<string, DecodedCall>): seq<CandidateKey>
    requires Fetched(results, calls)
  {
    FetchedSelected(results, calls);
    AllKeys(Select(results), calls)
  }

  /** The error lines the reporting loop emits, one per key with an issue. */
  function IssueList(st: seq<KeyStatus>): seq<Issue> {
    var w := KeysWithIssues(st);
    seq(|w|, i requires 0 <= i < |w| => IssueOf(w[i]))
  }

  /** Every status with an issue is reported, and every report describes a
      status with an issue. */
  lemma IssueListSpec(st: seq<KeyStatus>)
    ensures forall i :: 0 <= i < |st| && HasIssue(st[i]) ==> IssueOf(st[i]) in IssueList(st)
    ensures forall k :: 0 <= k < |IssueList(st)| ==>
              exists i :: 0 <= i < |st| && HasIssue(st[i]) && IssueList(st)[k] == IssueOf(st[i])
  {
    var w := KeysWithIssues(st);
    var issues := IssueList(st);
    forall i | 0 <= i < |st| && HasIssue(st[i]) ensures IssueOf(st[i]) in issues {
      var k :| 0 <= k < |w| && w[k] == st[i];
      assert issues[k] == IssueOf(st[i]);
    }
    forall k | 0 <= k < |issues|
      ensures exists i :: 0 <= i < |st| && HasIssue(st[i]) && issues[k] == IssueOf(st[i])
    {
      assert w[k] in st && HasIssue(w[k]);
      var i :| 0 <= i < |st| && st[i] == w[k];
      assert issues[k] == IssueOf(st[i]);
    }
  }

  /** The decision the script reaches from the candidate keys. */
  function Decide(vs: seq<Validator>, keys: seq<CandidateKey>): Outcome {
    if HasDuplicateKeys(keys) then DuplicateKeys
    else
      var statuses := KeyStatuses(vs, keys);
      if |KeysWithIssues(statuses)| > 0 then Issues(IssueList(statuses))
      else AllGood(|keys|)
  }

  /** The script as a pure function of the three fetched responses. */
  function Reconcile(vs: seq<Validator>, results: seq<QueueEntry>, calls: map<string, DecodedCall>): Report
    requires Fetched(results, calls)
  {
    FetchedSelected(results, calls);
    var selected := Select(results);
    var keys := AllKeys(selected, calls);
    Report(|vs|, |Filter(IsTransaction, results)|, |selected|,
           AllEvents(selected, calls), |keys|, Decide(vs, keys))
  }

  /** The script's body, step by step. */
  method Run(vs: seq<Validator>, results: seq<QueueEntry>, calls: map<string, DecodedCall>)
      returns (report: Report)
    requires Fetched(results, calls)
    ensures report == Reconcile(vs, results, calls)
  {
    var selected := Select(results);
    FetchedSelected(results, calls);
    var keys, events := ExtractKeys(selected, calls);
    var outcome: Outcome;
    if |Dedupe(Keys(keys))| != |keys| {
      outcome := DuplicateKeys;
    } else {
      var statuses := KeyStatuses(vs, keys);
      var withIssues := KeysWithIssues(statuses);
      if |withIssues| > 0 {
        var issues := ReportIssues(withIssues);
        assert issues == IssueList(statuses);
        outcome := Issues(issues);
      } else {
        outcome := AllGood(|statuses|);
      }
    }
    report := Report(|vs|, |Filter(IsTransaction, results)|, |selected|, events, |keys|, outcome);
  }

  // ---------------------------------------------------------------------
  // Properties of a run
  // ---------------------------------------------------------------------

  /** The counts a run reports: the selected entries are among the queue's,
      the candidate count is the sum of the decoded array lengths, and a
      good run counts every candidate. */
  lemma ReconcileCounts(vs: seq<Validator>, results: seq<QueueEntry>, calls: map<string, DecodedCall>)
    requires Fetched(results, calls)
    ensures AllFetchable(Select(results), calls)
    ensures Reconcile(vs, results, calls).selectedCount <= |results|
    ensures Reconcile(vs, results, calls).keyCount == TotalArgCount(Select(results), calls)
    ensures Reconcile(vs, results, calls).outcome.AllGood? ==>
              Reconcile(vs, results, calls).outcome.count == Reconcile(vs, results, calls).keyCount
    ensures |Filter(IsWrongAddress, Reconcile(vs, results, calls).events)| ==
            |Filter(SentElsewhere, Select(results))|
  {
    FetchedSelected(results, calls);
    AllKeysLength(Select(results), calls);
    MismatchCount(Select(results), calls);
  }

  /** The run stops at the duplicate check exactly when two candidate keys
      coincide; no status is looked up then. */
  lemma DecideDuplicates(vs: seq<Validator>, keys: seq<CandidateKey>)
    ensures Decide(vs, keys) == DuplicateKeys <==>
            exists i, j :: 0 <= i < j < |keys| && keys[i].key == keys[j].key
  {
    DuplicateKeysIff(keys);
  }

  /** All keys are good exactly when they are distinct and every one of
      them is registered with status `"uninitialized"`; the count reported
      is then the number of candidate keys. */
  lemma DecideAllGood(vs: seq<Validator>, keys: seq<CandidateKey>)
    ensures Decide(vs, keys).AllGood? <==>
            NoDuplicates(Keys(keys)) &&
            forall i :: 0 <= i < |keys| ==> StatusOf(vs, keys[i].key) == Some(Uninitialized)
    ensures Decide(vs, keys).AllGood? ==> Decide(vs, keys).count == |keys|
  {
    DedupeLength(Keys(keys));
    KeysWithIssuesSpec(KeyStatuses(vs, keys));
  }

  /** `x` is the report line of some candidate key that has an issue. */
  ghost predicate ReportsCandidate(vs: seq<Validator>, keys: seq<CandidateKey>, x: Issue) {
    exists i :: 0 <= i < |keys| && StatusOf(vs, keys[i].key) != Some(Uninitialized) &&
      x == Issue(keys[i].key, keys[i].nonce, Classify(StatusOf(vs, keys[i].key)))
  }

  /** When issues are reported, there is at least one; every candidate key
      whose status is not `"uninitialized"` is reported, classified by its
      status; and nothing else is reported. */
  lemma DecideIssues(vs: seq<Validator>, keys: seq<CandidateKey>)
    requires Decide(vs, keys).Issues?
    ensures |Decide(vs, keys).issues| > 0
    ensures forall i :: 0 <= i < |keys| && StatusOf(vs, keys[i].key) != Some(Uninitialized) ==>
              Issue(keys[i].key, keys[i].nonce, Classify(StatusOf(vs, keys[i].key))) in Decide(vs, keys).issues
    ensures forall k :: 0 <= k < |Decide(vs, keys).issues| ==>
              ReportsCandidate(vs, keys, Decide(vs, keys).issues[k])
  {
    var st := KeyStatuses(vs, keys);
    var issues := Decide(vs, keys).issues;
    assert issues == IssueList(st);
    IssueListSpec(st);
    forall i | 0 <= i < |keys| && StatusOf(vs, keys[i].key) != Some(Uninitialized)
      ensures Issue(keys[i].key, keys[i].nonce, Classify(StatusOf(vs, keys[i].key))) in issues
    {
      assert HasIssue(st[i]) && IssueOf(st[i]) in IssueList(st);
      assert IssueOf(st[i]) == Issue(keys[i].key, keys[i].nonce, Classify(StatusOf(vs, keys[i].key)));
    }
    forall k | 0 <= k < |issues|
      ensures ReportsCandidate(vs, keys, issues[k])
    {
      assert IssueList(st)[k] == issues[k];
      var i :| 0 <= i < |st| && HasIssue(st[i]) && IssueList(st)[k] == IssueOf(st[i]);
      assert IssueOf(st[i]) == Issue(keys[i].key, keys[i].nonce, Classify(StatusOf(vs, keys[i].key)));
    }
  }

  /** A run of the script: one validator `A` with status `"uninitialized"`,
      and one correctly addressed `addValidators` transaction with nonce 7
      whose array holds the single key `A`, end with all one key good. */
  lemma ExampleRun()
    ensures
      var tx := Transaction("t", 7, AddValidators, ExpectedTo);
      var call := DecodedCall(AddValidators, [Parameter(ValidatorArray, [ValidatorArg("A", "_", ["_"])])]);
      var r := Reconcile([Validator("A", Uninitialized)], [QueueEntry(TransactionType, Some(tx))], map["t" := call]);
      r.events == [Extracted(7, 1)] && r.keyCount == 1 && r.outcome == AllGood(1)
  {
    var tx := Transaction("t", 7, AddValidators, ExpectedTo);
    var e := QueueEntry(TransactionType, Some(tx));
    var call := DecodedCall(AddValidators, [Parameter(ValidatorArray, [ValidatorArg("A", "_", ["_"])])]);
    var calls := map["t" := call];
    assert Select([e]) == [e];
    assert [e][..0] == [];
    assert Contributes(e, calls);
    assert Contribution(e, calls) == [CandidateKey("A", 7)];
    assert EventsOf(e, calls) == [Extracted(7, 1)];
    assert [e][..|[e]| - 1] == [] && [e][|[e]| - 1] == e;
    var keys := AllKeys([e], calls);
    assert keys == AllKeys([], calls) + Contribution(e, calls);
    assert keys == [CandidateKey("A", 7)];
    assert AllEvents([e], calls) == AllEvents([], calls) + EventsOf(e, calls);
    assert Keys(keys) == ["A"];
    assert Dedupe(["A"]) == ["A"];
    assert StatusOf([Validator("A", Uninitialized)], "A") == Some(Uninitialized);
    KeysWithIssuesSpec(KeyStatuses([Validator("A", Uninitialized)], keys));
  }
}
