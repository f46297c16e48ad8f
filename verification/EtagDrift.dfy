/**
 ETag-aware drift detection of BMC settings: the classification of one settings key, the diff
 that replaces a full GET by ETag and fingerprint checks, and the refresh of the stored entries.

 A keyed HMAC is modelled as a free constructor: injective, and never equal to the empty
 fingerprint. Number and boolean parsing is left to the caller as a record of functions.
 */
module EtagDrift {
  import opened Options

  /** The fingerprint stored with a key: none for entries written before fingerprints existed. */
  datatype Fingerprint = NoFingerprint | Hmac(of: string)

  /** What the status records about the last apply of one settings key. */
  datatype Entry = Entry(uri: string, etag: string, hash: Fingerprint, post: bool)

  /** An attribute value as the BMC reports it. */
  datatype Attr =
    | Null
    | IntAttr(i: int)
    | StrAttr(s: string)
    | FloatAttr(f: real)
    | BoolAttr(b: bool)
    | OtherAttr(rendered: string)

  datatype Coercions = Coercions(
    atoi: string -> Option<int>,
    parseFloat: string -> Option<real>,
    parseBool: string -> Option<bool>)

  datatype Policy = Conservative | Strict

  /** One drift check: how strings are coerced, the drift policy, and whether it only verifies. */
  datatype Mode = Mode(coerce: Coercions, policy: Policy, verifyOnly: bool) {
    function Effective(): Policy {
      if verifyOnly then Conservative else policy
    }
  }

  type Store = map<string, Entry>
  type Tags = map<string, string>
  type Attrs = map<string, Attr>

  /** What the BMC answers during one check; None is a failed request. FetchETags may be partial. */
  datatype Bmc = Bmc(tags: Option<Tags>, attrs: Option<Attrs>)

  // ---------------------------------------------------------------- one key

  /** The coerced desired value when it differs from the reported one. */
  function ComputeReadableDiff(c: Coercions, desired: string, current: Attr): Option<Attr> {
    match current
    case IntAttr(i) =>
      var v := c.atoi(desired);
      if v.None? then Some(StrAttr(desired)) else if i != v.value then Some(IntAttr(v.value)) else None
    case StrAttr(s) => if s != desired then Some(StrAttr(desired)) else None
    case FloatAttr(f) =>
      var v := c.parseFloat(desired);
      if v.None? then Some(StrAttr(desired)) else if f != v.value then Some(FloatAttr(v.value)) else None
    case BoolAttr(b) =>
      var v := c.parseBool(desired);
      if v.None? then Some(StrAttr(desired)) else if b != v.value then Some(BoolAttr(v.value)) else None
    case OtherAttr(r) => if r != desired then Some(StrAttr(desired)) else None
    case Null => if "<nil>" != desired then Some(StrAttr(desired)) else None
  }

  predicate Matches(c: Coercions, desired: string, current: Attr) {
    ComputeReadableDiff(c, desired, current).None?
  }

  datatype Action = NeedsGet | NeedsApply | Skip

  function ClassifyKey(desired: string, stored: Option<Entry>, currentTag: string, writeOnly: bool, policy: Policy): Action {
    if stored.None? || stored.value.etag == "" || currentTag == "" then NeedsGet
    else if currentTag == stored.value.etag then
      if stored.value.hash == NoFingerprint then NeedsGet
      else if Hmac(desired) != stored.value.hash then NeedsApply
      else Skip
    else if writeOnly then
      if policy == Strict || Hmac(desired) != stored.value.hash then NeedsApply else Skip
    else NeedsGet
  }

  predicate IsPostKey(key: string, stored: Option<Entry>) {
    (stored.Some? && stored.value.post) || "POST " <= key
  }

  function Lookup(store: Store, key: string): Option<Entry> {
    if key in store then Some(store[key]) else None
  }

  /** The ETag currently reported for the resource of a stored entry, "" when there is none. */
  function CurrentTag(stored: Option<Entry>, tags: Option<Tags>): string {
    if stored.Some? && stored.value.uri != "" && tags.Some? && stored.value.uri in tags.value
    then tags.value[stored.value.uri] else ""
  }

  datatype Plan = Get | Apply | PostSkip | Unchanged

  /** The bucket `classifySettingsKeys` puts a key in, before and after its second pass. */
  function FirstPlan(key: string, desired: string, store: Store, tags: Option<Tags>, policy: Policy): Plan {
    var stored := Lookup(store, key);
    if IsPostKey(key, stored) && stored.Some? then
      if Hmac(desired) == stored.value.hash then PostSkip else Apply
    else
      match ClassifyKey(desired, stored, CurrentTag(stored, tags), false, policy)
      case NeedsGet => Get
      case NeedsApply => Apply
      case Skip => Unchanged
  }

  function KeyPlan(key: string, desired: string, store: Store, tags: Option<Tags>, policy: Policy): Plan {
    var first := FirstPlan(key, desired, store, tags, policy);
    if first == Unchanged && tags.None? && store != map[] then Get else first
  }

  /** What `applyDiffForKey` adds to the diff for a key that was asked for in the GET. */
  function GetOutcome(m: Mode, key: string, desired: string, current: Attrs, store: Store, tags: Option<Tags>): Option<Attr> {
    if key in current && current[key] != Null then
      ComputeReadableDiff(m.coerce, desired, current[key])
    else
      var stored := Lookup(store, key);
      match ClassifyKey(desired, stored, CurrentTag(stored, tags), true, m.Effective())
      case NeedsApply => Some(StrAttr(desired))
      case NeedsGet =>
        if stored.None? || Hmac(desired) != stored.value.hash then Some(StrAttr(desired)) else None
      case Skip => None
  }

  /** The contribution of one key to the diff. */
  function KeyDiff(m: Mode, key: string, desired: string, current: Attrs, store: Store, tags: Option<Tags>): Option<Attr> {
    match KeyPlan(key, desired, store, tags, m.policy)
    case Get => GetOutcome(m, key, desired, current, store, tags)
    case Apply => Some(StrAttr(desired))
    case PostSkip => None
    case Unchanged => None
  }

  // ---------------------------------------------------------------- the whole diff

  function FetchUris(desired: map<string, string>, store: Store): set<string> {
    set k | k in store && k in desired && store[k].uri != "" && store[k].etag != "" :: store[k].uri
  }

  /** The ETags a check works with: nil when no URI is worth asking for or the request failed. */
  function Fetched(bmc: Bmc, desired: map<string, string>, store: Store): Option<Tags> {
    var uris := FetchUris(desired, store);
    if uris == {} || bmc.tags.None? then None
    else Some(map u | u in uris && u in bmc.tags.value :: bmc.tags.value[u])
  }

  function Asked(desired: map<string, string>, store: Store, tags: Option<Tags>, policy: Policy): set<string> {
    set k | k in desired && KeyPlan(k, desired[k], store, tags, policy) == Get
  }

  function DiffOf(m: Mode, desired: map<string, string>, current: Attrs, store: Store, tags: Option<Tags>): Attrs {
    map k | k in desired && KeyDiff(m, k, desired[k], current, store, tags).Some?
      :: KeyDiff(m, k, desired[k], current, store, tags).value
  }

  function Backfill(m: Mode, desired: map<string, string>, diff: Attrs, store: Store, tags: Option<Tags>): map<string, Fingerprint> {
    map k | k in Asked(desired, store, tags, m.policy) && tags.Some? && k !in diff && LacksFingerprint(store, k) :: Hmac(desired[k])
  }

  datatype Outcome = Failed | Computed(diff: Attrs, tags: Option<Tags>, backfill: map<string, Fingerprint>)

  function EtagDiff(m: Mode, bmc: Bmc, desired: map<string, string>, store: Store): Outcome {
    var tags := Fetched(bmc, desired, store);
    if desired == map[] then Computed(map[], None, map[])
    else if Asked(desired, store, tags, m.policy) != {} && bmc.attrs.None? then Failed
    else
      var diff := DiffOf(m, desired, bmc.attrs.GetOr(map[]), store, tags);
      Computed(diff, tags, Backfill(m, desired, diff, store, tags))
  }

  /** The entries whose resource changed while their key was not in the diff, with the new ETag. */
  function RefreshedETags(store: Store, tags: Option<Tags>, diff: set<string>): Store {
    map k | k in store && k !in diff && tags.Some? && store[k].uri in tags.value
            && tags.value[store[k].uri] != store[k].etag && tags.value[store[k].uri] != ""
      :: store[k].(etag := tags.value[store[k].uri])
  }

  /** The store after a check has persisted its refreshes and backfills. */
  function Persisted(store: Store, tags: Option<Tags>, diff: set<string>, backfill: map<string, Fingerprint>): Store {
    var merged := store + RefreshedETags(store, tags, diff);
    map k | k in merged :: if k in backfill then merged[k].(hash := backfill[k]) else merged[k]
  }

  /** What the BMC library reports for one applied key. */
  datatype ApplyResult = ApplyResult(uri: string, etag: string, isPost: bool)

  /** The store after an apply of `desired` has been recorded. */
  function Recorded(store: Store, desired: map<string, string>, results: map<string, ApplyResult>): Store {
    store + map k | k in results :: RecordedEntry(k, desired, results[k])
  }

  function RecordedEntry(key: string, desired: map<string, string>, result: ApplyResult): Entry {
    Entry(result.uri, result.etag, if key in desired then Hmac(desired[key]) else NoFingerprint, result.isPost)
  }

  // ---------------------------------------------------------------- the loops

  /** `bucket` holds the keys among `keys` that a classification gives `plan`. */
  ghost predicate IsBucket(bucket: set<string>, plan: Plan, keys: set<string>, plans: map<string, Plan>) {
    forall k :: k in bucket <==> k in keys && k in plans && plans[k] == plan
  }

  ghost function Plans(desired: map<string, string>, store: Store, tags: Option<Tags>, policy: Policy): map<string, Plan> {
    map k | k in desired :: FirstPlan(k, desired[k], store, tags, policy)
  }

  /** The three buckets of `classifySettingsKeys`; the values it keeps with the keys are the desired ones. */
  method ClassifySettingsKeys(desired: map<string, string>, store: Store, tags: Option<Tags>, policy: Policy)
    returns (asked: set<string>, immediate: set<string>)
    ensures asked == Asked(desired, store, tags, policy)
    ensures immediate == set k | k in desired && KeyPlan(k, desired[k], store, tags, policy) == Apply
  {
    asked, immediate := {}, {};
    var skipped: set<string> := {};
    var todo := desired.Keys;
    ghost var plans := Plans(desired, store, tags, policy);
    while todo != {}
      invariant todo <= desired.Keys
      invariant IsBucket(asked, Get, desired.Keys - todo, plans)
      invariant IsBucket(immediate, Apply, desired.Keys - todo, plans)
      invariant IsBucket(skipped, PostSkip, desired.Keys - todo, plans)
    {
      var key :| key in todo;
      todo := todo - {key};
      var plan := FirstPlan(key, desired[key], store, tags, policy);
      if plan == Get {
        asked := asked + {key};
      } else if plan == Apply {
        immediate := immediate + {key};
      } else if plan == PostSkip {
        skipped := skipped + {key};
      }
    }
    if tags.None? && store != map[] {
      asked := AskForTheRest(desired.Keys, asked, skipped + immediate);
    }
    BucketsArePlans(desired, store, tags, policy, asked, immediate, skipped);
  }

  /** After the second pass everything that is not immediate or skipped is asked for. */
  lemma BucketsArePlans(desired: map<string, string>, store: Store, tags: Option<Tags>, policy: Policy,
                        asked: set<string>, immediate: set<string>, skipped: set<string>)
    requires var plans := Plans(desired, store, tags, policy);
             && IsBucket(immediate, Apply, desired.Keys, plans)
             && IsBucket(skipped, PostSkip, desired.Keys, plans)
             && if tags.None? && store != map[] then asked == desired.Keys - skipped - immediate
                else IsBucket(asked, Get, desired.Keys, plans)
    ensures asked == Asked(desired, store, tags, policy)
    ensures immediate == set k | k in desired && KeyPlan(k, desired[k], store, tags, policy) == Apply
  {
  }

  /** The second pass, without any ETags: every key not yet handled is asked for as well. */
  method AskForTheRest(keys: set<string>, first: set<string>, handled: set<string>) returns (asked: set<string>)
    ensures asked == first + (keys - handled)
  {
    asked := first;
    var todo := keys;
    while todo != {}
      invariant todo <= keys
      invariant asked == first + (keys - todo - handled)
    {
      var key :| key in todo;
      todo := todo - {key};
      if key !in handled && key !in asked {
        asked := asked + {key};
      }
    }
  }

  method FetchCurrentETags(bmc: Bmc, desired: map<string, string>, store: Store) returns (tags: Option<Tags>)
    ensures tags == Fetched(bmc, desired, store)
  {
    var uris: set<string> := {};
    var todo := store.Keys;
    while todo != {}
      invariant todo <= store.Keys
      invariant uris == set k | k in store && k !in todo && k in desired && store[k].uri != "" && store[k].etag != "" :: store[k].uri
    {
      var key :| key in todo;
      todo := todo - {key};
      if key in desired && store[key].uri != "" && store[key].etag != "" {
        uris := uris + {store[key].uri};
      }
    }
    assert uris == FetchUris(desired, store);
    tags := None;
    if uris != {} && bmc.tags.Some? {
      tags := Some(map u | u in uris && u in bmc.tags.value :: bmc.tags.value[u]);
    }
  }

  /** A diff built from the two buckets is the diff of the specification. */
  lemma BucketsGiveDiff(m: Mode, desired: map<string, string>, asked: set<string>, immediate: set<string>, current: Attrs,
                        store: Store, tags: Option<Tags>, diff: Attrs)
    requires asked == Asked(desired, store, tags, m.policy)
    requires immediate == set k | k in desired && KeyPlan(k, desired[k], store, tags, m.policy) == Apply
    requires forall k :: k in diff <==> k in immediate || (k in asked && GetOutcome(m, k, desired[k], current, store, tags).Some?)
    requires forall k :: k in diff ==>
                           diff[k] == if k in immediate then StrAttr(desired[k]) else GetOutcome(m, k, desired[k], current, store, tags).value
    ensures diff == DiffOf(m, desired, current, store, tags)
  {
    var spec := DiffOf(m, desired, current, store, tags);
    forall k
      ensures k in diff <==> k in spec
      ensures k in diff ==> diff[k] == spec[k]
    {
      if k in desired {
        assert KeyDiff(m, k, desired[k], current, store, tags) ==
               if k in immediate then Some(StrAttr(desired[k]))
               else if k in asked then GetOutcome(m, k, desired[k], current, store, tags) else None;
      }
    }
  }

  /** Steps 5 and 6: the keys that were read are compared, the immediate ones are added. */
  method BuildDiff(m: Mode, desired: map<string, string>, asked: set<string>, immediate: set<string>, current: Attrs,
                   store: Store, tags: Option<Tags>) returns (diff: Attrs)
    requires asked == Asked(desired, store, tags, m.policy)
    requires immediate == set k | k in desired && KeyPlan(k, desired[k], store, tags, m.policy) == Apply
    ensures diff == DiffOf(m, desired, current, store, tags)
  {
    diff := map[];
    var todo := asked;
    while todo != {}
      invariant todo <= asked
      invariant forall k :: k in diff <==> k in asked && k !in todo && GetOutcome(m, k, desired[k], current, store, tags).Some?
      invariant forall k :: k in diff ==> diff[k] == GetOutcome(m, k, desired[k], current, store, tags).value
    {
      var key :| key in todo;
      todo := todo - {key};
      var drift := GetOutcome(m, key, desired[key], current, store, tags);
      if drift.Some? {
        diff := diff[key := drift.value];
      }
    }
    diff := diff + map k | k in immediate :: StrAttr(desired[k]);
    BucketsGiveDiff(m, desired, asked, immediate, current, store, tags, diff);
  }

  predicate LacksFingerprint(store: Store, key: string) {
    key in store && store[key].etag != "" && store[key].hash == NoFingerprint
  }

  method CollectBackfills(desired: map<string, string>, asked: set<string>, diff: Attrs, store: Store)
    returns (backfill: map<string, Fingerprint>)
    requires asked <= desired.Keys
    ensures backfill == map k | k in asked && k !in diff && LacksFingerprint(store, k) :: Hmac(desired[k])
  {
    backfill := map[];
    var todo := asked;
    while todo != {}
      invariant todo <= asked
      invariant backfill == map k | k in asked && k !in todo && k !in diff && LacksFingerprint(store, k) :: Hmac(desired[k])
    {
      var key :| key in todo;
      todo := todo - {key};
      if key !in diff && LacksFingerprint(store, key) {
        backfill := backfill[key := Hmac(desired[key])];
      }
    }
  }

  method EtagAwareDiff(m: Mode, bmc: Bmc, desired: map<string, string>, store: Store) returns (r: Outcome)
    ensures r == EtagDiff(m, bmc, desired, store)
  {
    if desired == map[] {
      return Computed(map[], None, map[]);
    }
    var tags := FetchCurrentETags(bmc, desired, store);
    var asked, immediate := ClassifySettingsKeys(desired, store, tags, m.policy);
    if asked != {} && bmc.attrs.None? {
      return Failed;
    }
    var diff := BuildDiff(m, desired, asked, immediate, bmc.attrs.GetOr(map[]), store, tags);
    var backfill: map<string, Fingerprint> := map[];
    if tags.Some? {
      backfill := CollectBackfills(desired, asked, diff, store);
    }
    return Computed(diff, tags, backfill);
  }

  method CollectRefreshes(store: Store, tags: Option<Tags>, diff: set<string>) returns (refreshed: Store)
    ensures refreshed == RefreshedETags(store, tags, diff)
  {
    refreshed := map[];
    if tags.None? {
      return;
    }
    var todo := store.Keys;
    while todo != {}
      invariant todo <= store.Keys
      invariant forall k :: k in refreshed <==> k in RefreshedETags(store, tags, diff) && k !in todo
      invariant forall k :: k in refreshed ==> refreshed[k] == RefreshedETags(store, tags, diff)[k]
    {
      var key :| key in todo;
      todo := todo - {key};
      var e := store[key];
      if key !in diff && e.uri in tags.value && tags.value[e.uri] != e.etag && tags.value[e.uri] != "" {
        refreshed := refreshed[key := e.(etag := tags.value[e.uri])];
      }
    }
  }

  method WithHashes(merged: Store, backfill: map<string, Fingerprint>) returns (entries: Store)
    requires backfill.Keys <= merged.Keys
    ensures entries == map k | k in merged :: if k in backfill then merged[k].(hash := backfill[k]) else merged[k]
  {
    entries := merged;
    var todo := backfill.Keys;
    while todo != {}
      invariant todo <= backfill.Keys
      invariant entries.Keys == merged.Keys
      invariant forall k :: k in entries ==>
                              entries[k] == if k in backfill && k !in todo then merged[k].(hash := backfill[k]) else merged[k]
    {
      var key :| key in todo;
      todo := todo - {key};
      entries := entries[key := entries[key].(hash := backfill[key])];
    }
  }

  method WithResults(store: Store, desired: map<string, string>, results: map<string, ApplyResult>) returns (entries: Store)
    ensures entries == Recorded(store, desired, results)
  {
    var recorded: Store := map[];
    var todo := results.Keys;
    while todo != {}
      invariant todo <= results.Keys
      invariant recorded == map k | k in results && k !in todo :: RecordedEntry(k, desired, results[k])
    {
      var key :| key in todo;
      todo := todo - {key};
      recorded := recorded[key := RecordedEntry(key, desired, results[key])];
    }
    entries := store + recorded;
  }

  /** The status field the refresh writes: a failed patch leaves it as it was. */
  class AppliedETags {
    var entries: Store

    constructor (entries: Store)
      ensures this.entries == entries
    {
      this.entries := entries;
    }

    method RecordApply(desired: map<string, string>, results: map<string, ApplyResult>)
      modifies this
      ensures entries == Recorded(old(entries), desired, results)
    {
      entries := WithResults(entries, desired, results);
    }

    method PersistETagRefreshes(diff: Attrs, tags: Option<Tags>, backfill: map<string, Fingerprint>, patchOk: bool)
      requires backfill.Keys <= entries.Keys
      modifies this
      ensures entries == if patchOk then Persisted(old(entries), tags, diff.Keys, backfill) else old(entries)
    {
      var refreshed := CollectRefreshes(entries, tags, diff.Keys);
      if patchOk {
        entries := WithHashes(entries + refreshed, backfill);
      }
    }
  }
}
