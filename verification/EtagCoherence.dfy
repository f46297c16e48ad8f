/**
 When the ETag shortcut agrees with the plain comparison it speeds up: no drift of a readable key
 is missed as long as the stored entries are coherent, and exactly which refreshes keep them so.
 */
module EtagCoherence {
  import opened Options
  import opened EtagDrift

  // ---------------------------------------------------------------- write-only keys

  predicate WriteOnly(key: string, attrs: Attrs) {
    key !in attrs || attrs[key] == Null
  }

  /** The closed form for a write-only key that is not applied by POST. */
  lemma WriteOnlyClosedForm(m: Mode, key: string, desired: string, attrs: Attrs, store: Store, tags: Option<Tags>)
    requires key in store && !IsPostKey(key, Some(store[key])) && WriteOnly(key, attrs)
    ensures KeyDiff(m, key, desired, attrs, store, tags).Some? <==>
            || Hmac(desired) != store[key].hash
            || (m.policy == Strict && !m.verifyOnly && store[key].etag != ""
                && CurrentTag(Some(store[key]), tags) !in {"", store[key].etag})
  {
    var cur := CurrentTag(Some(store[key]), tags);
    assert store != map[];
    if cur == "" || store[key].etag == "" || cur != store[key].etag {
      assert KeyPlan(key, desired, store, tags, m.policy) == Get;
    }
  }

  /** Verification never reports a write-only key right after it was applied, whatever the BMC answers. */
  lemma JustAppliedIsVerified(m: Mode, bmc: Bmc, desired: map<string, string>, store: Store, key: string)
    requires m.verifyOnly && EtagDiff(m, bmc, desired, store).Computed?
    requires key in desired && key in store && !IsPostKey(key, Some(store[key])) && WriteOnly(key, bmc.attrs.GetOr(map[]))
    requires store[key].hash == Hmac(desired[key])
    ensures key !in EtagDiff(m, bmc, desired, store).diff
  {
    WriteOnlyClosedForm(m, key, desired[key], bmc.attrs.GetOr(map[]), store, Fetched(bmc, desired, store));
  }

  // ---------------------------------------------------------------- one check

  /** What a resource showed under each ETag it ever carried. */
  type Snapshots = map<(string, string), Attrs>

  /** The full GET comparison would report this readable key. */
  predicate Drifts(c: Coercions, key: string, desired: string, attrs: Attrs) {
    !WriteOnly(key, attrs) && !Matches(c, desired, attrs[key])
  }

  /** The entry's ETag was taken while the value had the entry's fingerprint. */
  predicate Coherent(c: Coercions, key: string, e: Entry, seen: Snapshots) {
    e.uri != "" && e.etag != "" && e.hash.Hmac? ==>
      (e.uri, e.etag) in seen && !Drifts(c, key, e.hash.of, seen[(e.uri, e.etag)])
  }

  ghost predicate StoreCoherent(c: Coercions, store: Store, seen: Snapshots) {
    forall k :: k in store && !IsPostKey(k, Some(store[k])) ==> Coherent(c, k, store[k], seen)
  }

  /** Equal ETags mean an unchanged resource: the key reads as it did under the tag carried now. */
  predicate KeyShown(key: string, uri: string, attrs: Attrs, tags: Tags, seen: Snapshots) {
    uri in tags && tags[uri] != "" ==>
      && (uri, tags[uri]) in seen
      && (key in attrs <==> key in seen[(uri, tags[uri])])
      && (key in attrs ==> attrs[key] == seen[(uri, tags[uri])][key])
  }

  ghost predicate Shown(home: map<string, string>, attrs: Attrs, tags: Tags, seen: Snapshots) {
    forall k :: k in home ==> KeyShown(k, home[k], attrs, tags, seen)
  }

  /** PATCH entries point at the resource that holds their attribute. */
  ghost predicate Homed(store: Store, home: map<string, string>) {
    forall k :: k in store && !IsPostKey(k, Some(store[k])) && store[k].uri != "" ==> k in home && home[k] == store[k].uri
  }

  /** A key that is neither asked for nor applied reads as its desired value. */
  lemma SkippedKeyMatches(m: Mode, key: string, desired: string, attrs: Attrs, store: Store, tags: Tags, seen: Snapshots)
    requires key in store && !IsPostKey(key, Some(store[key])) && Coherent(m.coerce, key, store[key], seen)
    requires KeyShown(key, store[key].uri, attrs, tags, seen)
    ensures Drifts(m.coerce, key, desired, attrs) ==> KeyDiff(m, key, desired, attrs, store, Some(tags)).Some?
    ensures key in attrs && attrs[key].StrAttr? ==>
              (KeyDiff(m, key, desired, attrs, store, Some(tags)).Some? <==> Drifts(m.coerce, key, desired, attrs))
  {
  }

  /** One key: drift is reported, and for a string attribute nothing else is. */
  lemma KeyDriftSeen(m: Mode, key: string, desired: string, attrs: Attrs, store: Store, tags: Option<Tags>, seen: Snapshots)
    requires !IsPostKey(key, Lookup(store, key))
    requires key in store ==> Coherent(m.coerce, key, store[key], seen)
    requires key in store && tags.Some? && store[key].uri != "" ==> KeyShown(key, store[key].uri, attrs, tags.value, seen)
    ensures Drifts(m.coerce, key, desired, attrs) ==> KeyDiff(m, key, desired, attrs, store, tags).Some?
    ensures key in attrs && attrs[key].StrAttr? ==>
              (KeyDiff(m, key, desired, attrs, store, tags).Some? <==> Drifts(m.coerce, key, desired, attrs))
  {
    if key in store && tags.Some? && store[key].uri != "" {
      SkippedKeyMatches(m, key, desired, attrs, store, tags.value, seen);
    } else {
      assert CurrentTag(Lookup(store, key), tags) == "";
      assert KeyPlan(key, desired, store, tags, m.policy) == Get;
    }
  }

  /** The answers of the BMC during a check are what it holds; the ETag reply may leave URIs out. */
  ghost predicate Answers(bmc: Bmc, attrs: Attrs, tags: Tags) {
    && (bmc.attrs.Some? ==> bmc.attrs.value == attrs)
    && (bmc.tags.Some? ==> bmc.tags.value.Keys <= tags.Keys
                           && forall u :: u in bmc.tags.value ==> bmc.tags.value[u] in {"", tags[u]})
  }

  lemma FetchedShows(bmc: Bmc, desired: map<string, string>, store: Store, home: map<string, string>,
                     attrs: Attrs, tags: Tags, seen: Snapshots)
    requires Homed(store, home) && Shown(home, attrs, tags, seen) && Answers(bmc, attrs, tags)
    ensures var t := Fetched(bmc, desired, store); t.Some? ==>
              forall k :: k in store && !IsPostKey(k, Some(store[k])) && store[k].uri != ""
                          ==> KeyShown(k, store[k].uri, attrs, t.value, seen)
  {
    var t := Fetched(bmc, desired, store);
    if t.Some? {
      forall k | k in store && !IsPostKey(k, Some(store[k])) && store[k].uri != ""
        ensures KeyShown(k, store[k].uri, attrs, t.value, seen)
      {
        assert KeyShown(k, home[k], attrs, tags, seen);
      }
    }
  }

  /** No drift of a readable key is missed; for string attributes the reported keys are exactly the drifted ones. */
  lemma NoMissedDrift(m: Mode, bmc: Bmc, desired: map<string, string>, store: Store, home: map<string, string>,
                      attrs: Attrs, tags: Tags, seen: Snapshots)
    requires StoreCoherent(m.coerce, store, seen) && Homed(store, home)
    requires Shown(home, attrs, tags, seen) && Answers(bmc, attrs, tags)
    requires EtagDiff(m, bmc, desired, store).Computed?
    ensures var diff := EtagDiff(m, bmc, desired, store).diff;
            forall k :: k in desired && !IsPostKey(k, Lookup(store, k)) ==>
                          && (Drifts(m.coerce, k, desired[k], attrs) ==> k in diff)
                          && (k in attrs && attrs[k].StrAttr? ==> (k in diff <==> Drifts(m.coerce, k, desired[k], attrs)))
  {
    if desired != map[] {
      var t := Fetched(bmc, desired, store);
      var diff := EtagDiff(m, bmc, desired, store).diff;
      FetchedShows(bmc, desired, store, home, attrs, tags, seen);
      forall k | k in desired && !IsPostKey(k, Lookup(store, k))
        ensures Drifts(m.coerce, k, desired[k], attrs) ==> k in diff
        ensures k in attrs && attrs[k].StrAttr? ==> (k in diff <==> Drifts(m.coerce, k, desired[k], attrs))
      {
        KeyDriftSeen(m, k, desired[k], attrs, store, t, seen);
        assert k in diff <==> KeyDiff(m, k, desired[k], attrs, store, t).Some? by {
          if bmc.attrs.None? {
            assert k !in Asked(desired, store, t, m.policy);
          }
        }
      }
    }
  }

  // ---------------------------------------------------------------- refreshes

  /** The stored ETag of this entry is replaced by the one fetched now. */
  predicate Refreshes(e: Entry, tags: Tags) {
    e.uri in tags && tags[e.uri] !in {"", e.etag}
  }

  /**
   The check a caller can make before the refresh: a refreshed fingerprint belongs to an evaluated key
   and matches its desired value, and a key without fingerprint has its ETag in the reply.
   */
  predicate RefreshSafe(key: string, e: Entry, desired: map<string, string>, tags: Tags) {
    && (Refreshes(e, tags) && e.hash.Hmac? ==> key in desired && e.hash == Hmac(desired[key]))
    && (key in desired && e.etag != "" && e.hash == NoFingerprint ==> e.uri in tags && tags[e.uri] != "")
  }

  ghost predicate AllSafe(desired: map<string, string>, store: Store, tags: Tags) {
    forall k :: k in store && !IsPostKey(k, Some(store[k])) && store[k].uri != "" ==> RefreshSafe(k, store[k], desired, tags)
  }

  function AfterCheck(m: Mode, desired: map<string, string>, attrs: Attrs, store: Store, tags: Option<Tags>): Store {
    var diff := DiffOf(m, desired, attrs, store, tags);
    Persisted(store, tags, diff.Keys, Backfill(m, desired, diff, store, tags))
  }

  ghost predicate InDiff(m: Mode, desired: map<string, string>, attrs: Attrs, store: Store, tags: Tags, key: string) {
    key in desired && KeyDiff(m, key, desired[key], attrs, store, Some(tags)).Some?
  }

  /** One entry after the refresh and the backfill. */
  function Renewed(e: Entry, tags: Tags, inDiff: bool, backfilled: Option<string>): Entry {
    Entry(e.uri,
          if Refreshes(e, tags) && !inDiff then tags[e.uri] else e.etag,
          if backfilled.Some? && !inDiff && e.etag != "" && e.hash == NoFingerprint then Hmac(backfilled.value) else e.hash,
          e.post)
  }

  lemma PersistedEntry(store: Store, tags: Tags, diff: set<string>, backfill: map<string, Fingerprint>, key: string)
    requires key in store && backfill.Keys <= store.Keys
    ensures Persisted(store, Some(tags), diff, backfill).Keys == store.Keys
    ensures var e := if Refreshes(store[key], tags) && key !in diff then store[key].(etag := tags[store[key].uri]) else store[key];
            Persisted(store, Some(tags), diff, backfill)[key] == if key in backfill then e.(hash := backfill[key]) else e
  {
  }

  /** The desired value of a key of the check. */
  function Wanted(desired: map<string, string>, key: string): Option<string> {
    if key in desired then Some(desired[key]) else None
  }

  /** What a check leaves of one entry. */
  lemma EntryAfterCheck(m: Mode, desired: map<string, string>, attrs: Attrs, store: Store, tags: Tags, key: string)
    requires key in store && !IsPostKey(key, Some(store[key]))
    ensures AfterCheck(m, desired, attrs, store, Some(tags)).Keys == store.Keys
    ensures AfterCheck(m, desired, attrs, store, Some(tags))[key]
            == Renewed(store[key], tags, InDiff(m, desired, attrs, store, tags, key), Wanted(desired, key))
  {
    var diff := DiffOf(m, desired, attrs, store, Some(tags));
    var backfill := Backfill(m, desired, diff, store, Some(tags));
    PersistedEntry(store, tags, diff.Keys, backfill, key);
    assert key in diff <==> InDiff(m, desired, attrs, store, tags, key);
    BackfilledKeys(m, desired, diff, store, tags, key);
  }

  lemma BackfilledKeys(m: Mode, desired: map<string, string>, diff: Attrs, store: Store, tags: Tags, key: string)
    requires key in store && !IsPostKey(key, Some(store[key]))
    ensures var backfill := Backfill(m, desired, diff, store, Some(tags));
            && (key in backfill <==> key in desired && key !in diff && LacksFingerprint(store, key))
            && (key in backfill ==> backfill[key] == Hmac(desired[key]))
  {
    if key in desired && LacksFingerprint(store, key) {
      assert KeyPlan(key, desired[key], store, Some(tags), m.policy) == Get;
      assert key in Asked(desired, store, Some(tags), m.policy);
    }
  }

  /** A safe refresh keeps an entry coherent. */
  lemma SafeRefreshIsCoherent(m: Mode, desired: map<string, string>, attrs: Attrs, store: Store, tags: Tags, key: string, seen: Snapshots)
    requires key in store && !IsPostKey(key, Some(store[key])) && store[key].uri != ""
    requires Coherent(m.coerce, key, store[key], seen) && KeyShown(key, store[key].uri, attrs, tags, seen)
    requires RefreshSafe(key, store[key], desired, tags)
    ensures key in AfterCheck(m, desired, attrs, store, Some(tags))
    ensures Coherent(m.coerce, key, AfterCheck(m, desired, attrs, store, Some(tags))[key], seen)
  {
    EntryAfterCheck(m, desired, attrs, store, tags, key);
    if key in desired {
      SkippedKeyMatches(m, key, desired[key], attrs, store, tags, seen);
    }
  }

  /** Every store that is coherent before the check is coherent after it, whatever the BMC held. */
  ghost predicate CheckKeepsCoherence(m: Mode, desired: map<string, string>, store: Store, tags: Tags) {
    forall attrs, seen |
      && StoreCoherent(m.coerce, store, seen)
      && Shown(Homes(store), attrs, tags, seen)
      :: StoreCoherent(m.coerce, AfterCheck(m, desired, attrs, store, Some(tags)), seen)
  }

  function Homes(store: Store): map<string, string> {
    map k | k in store && !IsPostKey(k, Some(store[k])) && store[k].uri != "" :: store[k].uri
  }

  /** The snapshots in which every fingerprint is the value, with one more reading for one key. */
  function Consistent(store: Store, tags: Tags, key: string, at: (string, string), reading: Attr): (seen: Snapshots)
    requires key in store
    requires at == (store[key].uri, store[key].etag) ==> store[key].hash == NoFingerprint
    ensures forall c: Coercions, k | k in store :: Coherent(c, k, store[k], seen)
  {
    var pairs := (set k | k in store :: (store[k].uri, store[k].etag)) + (set u | u in tags :: (u, tags[u])) + {at};
    map p | p in pairs ::
      (map k | k in store && (store[k].uri, store[k].etag) == p && store[k].hash.Hmac? :: StrAttr(store[k].hash.of))
      + (if p == at then map[key := reading] else map[])
  }

  function Readings(store: Store, tags: Tags, seen: Snapshots): Attrs {
    map k | k in store && store[k].uri in tags && (store[k].uri, tags[store[k].uri]) in seen
            && k in seen[(store[k].uri, tags[store[k].uri])]
      :: seen[(store[k].uri, tags[store[k].uri])][k]
  }

  lemma ReadingsShown(store: Store, tags: Tags, key: string, at: (string, string), reading: Attr)
    requires key in store
    requires at == (store[key].uri, store[key].etag) ==> store[key].hash == NoFingerprint
    ensures var seen := Consistent(store, tags, key, at, reading);
            Shown(Homes(store), Readings(store, tags, seen), tags, seen)
  {
    var seen := Consistent(store, tags, key, at, reading);
    forall k | k in Homes(store)
      ensures KeyShown(k, Homes(store)[k], Readings(store, tags, seen), tags, seen)
    {
      assert store[k].uri in tags ==> (store[k].uri, tags[store[k].uri]) in seen;
    }
  }

  /** A key that reads as its desired value and was never vouched for by an equal ETag is left out of the diff. */
  lemma MatchingKeyLeftOut(m: Mode, desired: string, attrs: Attrs, store: Store, tags: Tags, key: string)
    requires key in store && !IsPostKey(key, Some(store[key]))
    requires key in attrs && attrs[key] == StrAttr(desired)
    requires CurrentTag(Some(store[key]), Some(tags)) != store[key].etag || store[key].etag == ""
    ensures KeyDiff(m, key, desired, attrs, store, Some(tags)).None?
  {
  }

  lemma RefreshedFingerprintStale(m: Mode, desired: map<string, string>, attrs: Attrs, store: Store, tags: Tags, key: string, seen: Snapshots)
    requires key in store && !IsPostKey(key, Some(store[key])) && store[key].uri != ""
    requires Refreshes(store[key], tags) && store[key].hash.Hmac?
    requires key in attrs && attrs[key].StrAttr? && attrs[key].s != store[key].hash.of
    requires key in desired ==> attrs[key].s == desired[key]
    requires KeyShown(key, store[key].uri, attrs, tags, seen)
    ensures key in AfterCheck(m, desired, attrs, store, Some(tags))
    ensures !Coherent(m.coerce, key, AfterCheck(m, desired, attrs, store, Some(tags))[key], seen)
  {
    EntryAfterCheck(m, desired, attrs, store, tags, key);
    if key in desired {
      MatchingKeyLeftOut(m, desired[key], attrs, store, tags, key);
    }
  }

  lemma BackfilledFingerprintStale(m: Mode, desired: map<string, string>, attrs: Attrs, store: Store, tags: Tags, key: string, seen: Snapshots)
    requires key in store && !IsPostKey(key, Some(store[key])) && store[key].uri != ""
    requires key in desired && store[key].etag != "" && store[key].hash == NoFingerprint
    requires CurrentTag(Some(store[key]), Some(tags)) == ""
    requires key in attrs && attrs[key] == StrAttr(desired[key])
    requires (store[key].uri, store[key].etag) in seen && Drifts(m.coerce, key, desired[key], seen[(store[key].uri, store[key].etag)])
    ensures key in AfterCheck(m, desired, attrs, store, Some(tags))
    ensures !Coherent(m.coerce, key, AfterCheck(m, desired, attrs, store, Some(tags))[key], seen)
  {
    EntryAfterCheck(m, desired, attrs, store, tags, key);
    MatchingKeyLeftOut(m, desired[key], attrs, store, tags, key);
  }

  /** What a key reads as now is free when the reply has no ETag for its resource. */
  lemma OtherKeysStillShown(store: Store, tags: Tags, key: string, at: (string, string), reading: Attr, now: Attr)
    requires key in store && store[key].hash == NoFingerprint
    requires CurrentTag(Some(store[key]), Some(tags)) == "" && store[key].uri != ""
    ensures var seen := Consistent(store, tags, key, at, reading);
            Shown(Homes(store), Readings(store, tags, seen)[key := now], tags, seen)
  {
    var seen := Consistent(store, tags, key, at, reading);
    ReadingsShown(store, tags, key, at, reading);
    forall k | k in Homes(store)
      ensures KeyShown(k, Homes(store)[k], Readings(store, tags, seen)[key := now], tags, seen)
    {
      assert KeyShown(k, Homes(store)[k], Readings(store, tags, seen), tags, seen);
    }
  }

  /** A refreshed fingerprint of another value: the resource changed to a value the fingerprint does not have. */
  lemma RefreshLosesCoherence(m: Mode, desired: map<string, string>, store: Store, tags: Tags, key: string)
    requires key in store && !IsPostKey(key, Some(store[key])) && store[key].uri != ""
    requires Refreshes(store[key], tags) && store[key].hash.Hmac?
    requires key in desired ==> store[key].hash != Hmac(desired[key])
    ensures !CheckKeepsCoherence(m, desired, store, tags)
  {
    var e := store[key];
    var now := (e.uri, tags[e.uri]);
    var reading := StrAttr(if key in desired then desired[key] else e.hash.of + "'");
    var seen := Consistent(store, tags, key, now, reading);
    var attrs := Readings(store, tags, seen);
    ReadingsShown(store, tags, key, now, reading);
    assert KeyShown(key, Homes(store)[key], attrs, tags, seen);
    assert seen[now][key] == reading;
    RefreshedFingerprintStale(m, desired, attrs, store, tags, key, seen);
    NotKept(m, desired, attrs, store, tags, key, seen);
  }

  /** The resource was read with another value when the stored ETag was taken. */
  lemma OldReadingDrifts(c: Coercions, desired: string, store: Store, tags: Tags, key: string)
    requires key in store && !IsPostKey(key, Some(store[key])) && store[key].uri != "" && store[key].hash == NoFingerprint
    ensures var at := (store[key].uri, store[key].etag);
            var seen := Consistent(store, tags, key, at, StrAttr(desired + "'"));
            at in seen && Drifts(c, key, desired, seen[at])
  {
    var at := (store[key].uri, store[key].etag);
    var seen := Consistent(store, tags, key, at, StrAttr(desired + "'"));
    assert seen[at][key] == StrAttr(desired + "'");
  }

  /** A backfill next to a missing ETag: the fingerprint of today's value joins the ETag of an older one. */
  lemma BackfillLosesCoherence(m: Mode, desired: map<string, string>, store: Store, tags: Tags, key: string)
    requires key in store && !IsPostKey(key, Some(store[key])) && store[key].uri != ""
    requires key in desired && store[key].etag != "" && store[key].hash == NoFingerprint
    requires CurrentTag(Some(store[key]), Some(tags)) == ""
    ensures !CheckKeepsCoherence(m, desired, store, tags)
  {
    var at := (store[key].uri, store[key].etag);
    var reading := StrAttr(desired[key] + "'");
    var seen := Consistent(store, tags, key, at, reading);
    var attrs := Readings(store, tags, seen)[key := StrAttr(desired[key])];
    OtherKeysStillShown(store, tags, key, at, reading, StrAttr(desired[key]));
    OldReadingDrifts(m.coerce, desired[key], store, tags, key);
    BackfilledFingerprintStale(m, desired, attrs, store, tags, key, seen);
    NotKept(m, desired, attrs, store, tags, key, seen);
  }

  lemma NotKept(m: Mode, desired: map<string, string>, attrs: Attrs, store: Store, tags: Tags, key: string, seen: Snapshots)
    requires StoreCoherent(m.coerce, store, seen) && Shown(Homes(store), attrs, tags, seen)
    requires key in store && !IsPostKey(key, Some(store[key])) && key in AfterCheck(m, desired, attrs, store, Some(tags))
    requires !Coherent(m.coerce, key, AfterCheck(m, desired, attrs, store, Some(tags))[key], seen)
    ensures !CheckKeepsCoherence(m, desired, store, tags)
  {
    EntryAfterCheck(m, desired, attrs, store, tags, key);
  }

  /** A check keeps every coherent store coherent exactly when all its refreshes are safe. */
  lemma CoherenceKeptIffSafe(m: Mode, desired: map<string, string>, store: Store, tags: Tags)
    ensures CheckKeepsCoherence(m, desired, store, tags) <==> AllSafe(desired, store, tags)
  {
    if AllSafe(desired, store, tags) {
      forall attrs, seen | StoreCoherent(m.coerce, store, seen) && Shown(Homes(store), attrs, tags, seen)
        ensures StoreCoherent(m.coerce, AfterCheck(m, desired, attrs, store, Some(tags)), seen)
      {
        CheckIsCoherent(m, desired, attrs, store, tags, Homes(store), seen);
      }
    } else {
      var key :| key in store && !IsPostKey(key, Some(store[key])) && store[key].uri != "" && !RefreshSafe(key, store[key], desired, tags);
      if Refreshes(store[key], tags) && store[key].hash.Hmac? {
        RefreshLosesCoherence(m, desired, store, tags, key);
      } else {
        BackfillLosesCoherence(m, desired, store, tags, key);
      }
    }
  }

  lemma CheckIsCoherent(m: Mode, desired: map<string, string>, attrs: Attrs, store: Store, tags: Tags, home: map<string, string>, seen: Snapshots)
    requires StoreCoherent(m.coerce, store, seen) && Homed(store, home) && AllSafe(desired, store, tags)
    requires Shown(home, attrs, tags, seen)
    ensures StoreCoherent(m.coerce, AfterCheck(m, desired, attrs, store, Some(tags)), seen)
    ensures Homed(AfterCheck(m, desired, attrs, store, Some(tags)), home)
  {
    var after := AfterCheck(m, desired, attrs, store, Some(tags));
    forall k | k in after && !IsPostKey(k, Some(after[k]))
      ensures Coherent(m.coerce, k, after[k], seen)
      ensures after[k].uri != "" ==> k in home && home[k] == after[k].uri
    {
      assert k in store && after[k].post == store[k].post;
      EntryAfterCheck(m, desired, attrs, store, tags, k);
      if store[k].uri != "" {
        assert KeyShown(k, home[k], attrs, tags, seen);
        SafeRefreshIsCoherent(m, desired, attrs, store, tags, k, seen);
      }
    }
  }

  // ---------------------------------------------------------------- no stored entries yet

  /**
   The full comparison used while nothing is stored, for one key. It rejects what it cannot parse, and
   its type switch has no case for other reported types.
   */
  datatype FallbackResult = ParseError | Decided(diff: Option<Attr>)

  function FallbackKey(c: Coercions, key: string, desired: string, attrs: Attrs): FallbackResult {
    if WriteOnly(key, attrs) then Decided(Some(StrAttr(desired)))
    else
      match attrs[key]
      case IntAttr(_) => if c.atoi(desired).None? then ParseError else Decided(ComputeReadableDiff(c, desired, attrs[key]))
      case FloatAttr(_) => if c.parseFloat(desired).None? then ParseError else Decided(ComputeReadableDiff(c, desired, attrs[key]))
      case BoolAttr(_) => if c.parseBool(desired).None? then ParseError else Decided(ComputeReadableDiff(c, desired, attrs[key]))
      case OtherAttr(_) => Decided(None)
      case _ => Decided(ComputeReadableDiff(c, desired, attrs[key]))
  }

  /** The two diffs agree on an empty store unless the value does not parse or drifts in an unhandled type. */
  lemma FallbackAgreesIff(m: Mode, key: string, desired: string, attrs: Attrs, tags: Option<Tags>)
    ensures FallbackKey(m.coerce, key, desired, attrs) == Decided(KeyDiff(m, key, desired, attrs, map[], tags)) <==>
            || WriteOnly(key, attrs)
            || (match attrs[key]
                case IntAttr(_) => m.coerce.atoi(desired).Some?
                case FloatAttr(_) => m.coerce.parseFloat(desired).Some?
                case BoolAttr(_) => m.coerce.parseBool(desired).Some?
                case OtherAttr(r) => r == desired
                case _ => true)
  {
    assert KeyPlan(key, desired, map[], tags, m.policy) == Get;
  }

  /** The whole fallback: it fails when the readings are missing or a value does not parse. */
  function FallbackDiff(c: Coercions, bmc: Bmc, desired: map<string, string>): Outcome {
    if bmc.attrs.None? || exists k :: k in desired && FallbackKey(c, k, desired[k], bmc.attrs.value).ParseError? then Failed
    else
      Computed(map k | k in desired && FallbackReports(c, k, desired[k], bmc.attrs.value)
                 :: FallbackKey(c, k, desired[k], bmc.attrs.value).diff.value, None, map[])
  }

  predicate FallbackReports(c: Coercions, key: string, desired: string, attrs: Attrs) {
    var r := FallbackKey(c, key, desired, attrs);
    r.Decided? && r.diff.Some?
  }

  /** The loop of the fallback: keys that do not parse are collected as errors. */
  method BuildFallbackDiff(c: Coercions, bmc: Bmc, desired: map<string, string>) returns (r: Outcome)
    ensures r == FallbackDiff(c, bmc, desired)
  {
    if bmc.attrs.None? {
      return Failed;
    }
    var diff: Attrs, errs: set<string> := map[], {};
    var todo := desired.Keys;
    while todo != {}
      invariant todo <= desired.Keys
      invariant forall k :: k in errs <==> k in desired && k !in todo && FallbackKey(c, k, desired[k], bmc.attrs.value).ParseError?
      invariant forall k :: k in diff <==> k in desired && k !in todo && FallbackReports(c, k, desired[k], bmc.attrs.value)
      invariant forall k :: k in diff ==> diff[k] == FallbackKey(c, k, desired[k], bmc.attrs.value).diff.value
    {
      var key :| key in todo;
      todo := todo - {key};
      var one := FallbackKey(c, key, desired[key], bmc.attrs.value);
      if one.ParseError? {
        errs := errs + {key};
      } else if one.diff.Some? {
        diff := diff[key := one.diff.value];
      }
    }
    if errs != {} {
      var key :| key in errs;
      assert key in desired && FallbackKey(c, key, desired[key], bmc.attrs.value).ParseError?;
      return Failed;
    }
    r := Computed(diff, None, map[]);
  }

  /** The comparison a reconcile uses: by ETags as soon as anything is stored. */
  function SettingsDiff(m: Mode, bmc: Bmc, desired: map<string, string>, store: Store): Outcome {
    if store != map[] then EtagDiff(m, bmc, desired, store) else FallbackDiff(m.coerce, bmc, desired)
  }

  /** The fallback reports a drifting key exactly when its type is one it handles. */
  lemma FallbackReportsIff(c: Coercions, key: string, desired: string, attrs: Attrs)
    requires !FallbackKey(c, key, desired, attrs).ParseError?
    ensures Drifts(c, key, desired, attrs) ==> (FallbackReports(c, key, desired, attrs) <==> !attrs[key].OtherAttr?)
    ensures key in attrs && attrs[key].StrAttr? ==> (FallbackReports(c, key, desired, attrs) <==> Drifts(c, key, desired, attrs))
  {
  }

  // ---------------------------------------------------------------- runs

  /** The stored entries, and what the BMC holds and has held. */
  datatype World = World(store: Store, attrs: Attrs, tags: Tags, seen: Snapshots)

  datatype Step =
    | External                                                                        // anything happens on the BMC
    | Check(mode: Mode, desired: map<string, string>, reply: Bmc, patchOk: bool)      // a drift check
    | Applied(desired: map<string, string>, results: map<string, ApplyResult>)        // an apply is recorded

  predicate Extends(seen: Snapshots, seen': Snapshots) {
    forall p :: p in seen ==> p in seen' && seen'[p] == seen[p]
  }

  /** A recorded ETag was taken from the resource of its key while the key had the desired value. */
  predicate TakenWhileApplied(c: Coercions, key: string, desired: string, r: ApplyResult, home: map<string, string>, seen: Snapshots) {
    !r.isPost && r.uri != "" ==>
      && key in home && home[key] == r.uri
      && (r.etag != "" ==> (r.uri, r.etag) in seen && !Drifts(c, key, desired, seen[(r.uri, r.etag)]))
  }

  ghost predicate Next(c: Coercions, home: map<string, string>, w: World, step: Step, w': World) {
    match step
    case External => w'.store == w.store && Extends(w.seen, w'.seen) && Shown(home, w'.attrs, w'.tags, w'.seen)
    case Check(m, desired, reply, patchOk) =>
      && m.coerce == c && Answers(reply, w.attrs, w.tags)
      && var fetched := Fetched(reply, desired, w.store);
      && (fetched.Some? ==> AllSafe(desired, w.store, fetched.value))
      && var r := SettingsDiff(m, reply, desired, w.store);
      && w' == if r.Computed? && patchOk then w.(store := Persisted(w.store, r.tags, r.diff.Keys, r.backfill)) else w
    case Applied(desired, results) =>
      && (forall k :: k in results && k in desired ==> TakenWhileApplied(c, k, desired[k], results[k], home, w.seen))
      && (forall k :: k in results && k !in desired && !results[k].isPost && results[k].uri != "" ==> k in home && home[k] == results[k].uri)
      && w' == w.(store := Recorded(w.store, desired, results))
  }

  ghost predicate Good(c: Coercions, home: map<string, string>, w: World) {
    StoreCoherent(c, w.store, w.seen) && Homed(w.store, home) && Shown(home, w.attrs, w.tags, w.seen)
  }

  /** The readings a check left out of its GET do not matter. */
  lemma ReadingsSuffice(m: Mode, reply: Bmc, desired: map<string, string>, store: Store, attrs: Attrs, tags: Option<Tags>)
    requires reply.attrs.Some? ==> reply.attrs.value == attrs
    requires Asked(desired, store, tags, m.policy) == {} || reply.attrs.Some?
    ensures DiffOf(m, desired, reply.attrs.GetOr(map[]), store, tags) == DiffOf(m, desired, attrs, store, tags)
  {
    if reply.attrs.None? {
      forall k | k in desired
        ensures KeyDiff(m, k, desired[k], map[], store, tags) == KeyDiff(m, k, desired[k], attrs, store, tags)
      {
        assert k !in Asked(desired, store, tags, m.policy);
      }
    }
  }

  /** Without any ETags nothing is refreshed or backfilled. */
  lemma NothingPersisted(store: Store, diff: set<string>)
    ensures Persisted(store, None, diff, map[]) == store
  {
    assert RefreshedETags(store, None, diff) == map[];
  }

  /** What a completed check persists. */
  lemma CheckPersists(m: Mode, reply: Bmc, desired: map<string, string>, store: Store, attrs: Attrs)
    requires reply.attrs.Some? ==> reply.attrs.value == attrs
    requires EtagDiff(m, reply, desired, store).Computed?
    ensures var r := EtagDiff(m, reply, desired, store);
            Persisted(store, r.tags, r.diff.Keys, r.backfill)
            == if r.tags.None? then store else AfterCheck(m, desired, attrs, store, r.tags)
  {
    var r := EtagDiff(m, reply, desired, store);
    if r.tags.None? {
      assert r.backfill == map[];
      NothingPersisted(store, r.diff.Keys);
    } else {
      ReadingsSuffice(m, reply, desired, store, attrs, r.tags);
    }
  }

  lemma CheckKeepsGood(m: Mode, home: map<string, string>, w: World, reply: Bmc, desired: map<string, string>)
    requires Good(m.coerce, home, w) && Answers(reply, w.attrs, w.tags)
    requires SettingsDiff(m, reply, desired, w.store).Computed?
    requires var fetched := Fetched(reply, desired, w.store); fetched.Some? ==> AllSafe(desired, w.store, fetched.value)
    ensures var r := SettingsDiff(m, reply, desired, w.store);
            Good(m.coerce, home, w.(store := Persisted(w.store, r.tags, r.diff.Keys, r.backfill)))
  {
    var r := SettingsDiff(m, reply, desired, w.store);
    if w.store == map[] {
      NothingPersisted(w.store, r.diff.Keys);
    } else {
      CheckPersists(m, reply, desired, w.store, w.attrs);
      if r.tags.Some? {
        FetchedShows(reply, desired, w.store, home, w.attrs, w.tags, w.seen);
        StepCheckIsCoherent(m, desired, w, r.tags.value, home);
      }
    }
  }

  lemma StepCheckIsCoherent(m: Mode, desired: map<string, string>, w: World, tags: Tags, home: map<string, string>)
    requires Good(m.coerce, home, w) && AllSafe(desired, w.store, tags)
    requires forall k :: k in w.store && !IsPostKey(k, Some(w.store[k])) && w.store[k].uri != ""
                         ==> KeyShown(k, w.store[k].uri, w.attrs, tags, w.seen)
    ensures StoreCoherent(m.coerce, AfterCheck(m, desired, w.attrs, w.store, Some(tags)), w.seen)
    ensures Homed(AfterCheck(m, desired, w.attrs, w.store, Some(tags)), home)
  {
    CheckIsCoherent(m, desired, w.attrs, w.store, tags, Homes(w.store), w.seen);
    var after := AfterCheck(m, desired, w.attrs, w.store, Some(tags));
    forall k | k in after && !IsPostKey(k, Some(after[k])) && after[k].uri != ""
      ensures k in home && home[k] == after[k].uri
    {
      assert k in Homes(w.store) by {
        assert Homed(after, Homes(w.store));
      }
    }
  }

  lemma AppliedKeepsGood(c: Coercions, home: map<string, string>, w: World, step: Step, w': World)
    requires Good(c, home, w) && step.Applied? && Next(c, home, w, step, w')
    ensures Good(c, home, w')
  {
    forall k | k in w'.store && !IsPostKey(k, Some(w'.store[k]))
      ensures Coherent(c, k, w'.store[k], w'.seen)
      ensures w'.store[k].uri != "" ==> k in home && home[k] == w'.store[k].uri
    {
      if k in step.results && k in step.desired {
        assert TakenWhileApplied(c, k, step.desired[k], step.results[k], home, w.seen);
      }
    }
  }

  lemma StepKeepsGood(c: Coercions, home: map<string, string>, w: World, step: Step, w': World)
    requires Good(c, home, w) && Next(c, home, w, step, w')
    ensures Good(c, home, w')
  {
    match step
    case External =>
      forall k | k in w.store && !IsPostKey(k, Some(w.store[k]))
        ensures Coherent(c, k, w.store[k], w'.seen)
      {
        assert Coherent(c, k, w.store[k], w.seen);
      }
    case Check(m, desired, reply, patchOk) =>
      if SettingsDiff(m, reply, desired, w.store).Computed? && patchOk {
        CheckKeepsGood(m, home, w, reply, desired);
      }
    case Applied(_, _) => AppliedKeepsGood(c, home, w, step, w');
  }

  /** What one comparison reports of a drifting key, by ETags or by the fallback. */
  lemma SettingsDiffSeesDrift(m: Mode, reply: Bmc, desired: map<string, string>, home: map<string, string>, w: World, k: string)
    requires Good(m.coerce, home, w) && Answers(reply, w.attrs, w.tags)
    requires SettingsDiff(m, reply, desired, w.store).Computed?
    requires k in desired && !IsPostKey(k, Lookup(w.store, k))
    ensures var diff := SettingsDiff(m, reply, desired, w.store).diff;
            && (Drifts(m.coerce, k, desired[k], w.attrs) ==> (k in diff <==> w.store != map[] || !w.attrs[k].OtherAttr?))
            && (k in w.attrs && w.attrs[k].StrAttr? ==> (k in diff <==> Drifts(m.coerce, k, desired[k], w.attrs)))
  {
    if w.store == map[] {
      FallbackReportsIff(m.coerce, k, desired[k], w.attrs);
    } else {
      NoMissedDrift(m, reply, desired, w.store, home, w.attrs, w.tags, w.seen);
    }
  }

  /**
   Along every run of safe checks, applies and outside changes, from an empty store on: a check that completes
   reports a drifting key, unless nothing is stored yet and the key has a type the fallback does not handle.
   */
  lemma {:induction false} NoMissedDriftInRuns(c: Coercions, home: map<string, string>, run: seq<World>, steps: seq<Step>, i: nat, k: string)
    requires |run| == |steps| + 1 && i < |steps| && Good(c, home, run[0])
    requires forall j | 0 <= j < |steps| :: Next(c, home, run[j], steps[j], run[j + 1])
    ensures Good(c, home, run[i])
    ensures var s, w := steps[i], run[i];
            s.Check? && SettingsDiff(s.mode, s.reply, s.desired, w.store).Computed?
            && k in s.desired && !IsPostKey(k, Lookup(w.store, k)) ==>
              var diff := SettingsDiff(s.mode, s.reply, s.desired, w.store).diff;
              && (Drifts(c, k, s.desired[k], w.attrs) ==> (k in diff <==> w.store != map[] || !w.attrs[k].OtherAttr?))
              && (k in w.attrs && w.attrs[k].StrAttr? ==> (k in diff <==> Drifts(c, k, s.desired[k], w.attrs)))
  {
    RunIsGood(c, home, run, steps, i);
    assert Next(c, home, run[i], steps[i], run[i + 1]);
    var s, w := steps[i], run[i];
    if s.Check? && SettingsDiff(s.mode, s.reply, s.desired, w.store).Computed?
       && k in s.desired && !IsPostKey(k, Lookup(w.store, k)) {
      SettingsDiffSeesDrift(s.mode, s.reply, s.desired, home, w, k);
    }
  }

  lemma {:induction false} RunIsGood(c: Coercions, home: map<string, string>, run: seq<World>, steps: seq<Step>, i: nat)
    requires |run| == |steps| + 1 && i <= |steps| && Good(c, home, run[0])
    requires forall j | 0 <= j < |steps| :: Next(c, home, run[j], steps[j], run[j + 1])
    ensures Good(c, home, run[i])
  {
    if i > 0 {
      RunIsGood(c, home, run, steps, i - 1);
      StepKeepsGood(c, home, run[i - 1], steps[i - 1], run[i]);
    }
  }

  // ---------------------------------------------------------------- a missed drift

  /** Keys "a" and "b" of one resource, both recorded at `etag`. */
  function TwoKeys(etag: string): Store {
    map["a" := Entry("/r", etag, Hmac("x"), false), "b" := Entry("/r", etag, Hmac("y"), false)]
  }

  lemma OneUriFetched(bmc: Bmc, desired: map<string, string>, etag: string)
    requires "a" in desired && etag != "" && bmc.tags == Some(map["/r" := "2"])
    ensures Fetched(bmc, desired, TwoKeys(etag)) == Some(map["/r" := "2"])
  {
    var store := TwoKeys(etag);
    var uris := FetchUris(desired, store);
    assert store["a"].uri in uris;
    assert uris == {"/r"};
    assert (map u | u in uris && u in bmc.tags.value :: bmc.tags.value[u]) == map["/r" := "2"];
  }

  /** "b" was changed from outside, which moved the ETag of the resource to "2". */
  predicate ChangedOutside(bmc: Bmc) {
    bmc == Bmc(Some(map["/r" := "2"]), Some(map["a" := StrAttr("x"), "b" := StrAttr("changed")]))
  }

  predicate FindsNothing(r: Outcome) {
    r == Computed(map[], Some(map["/r" := "2"]), map[])
  }

  lemma NothingToReport(m: Mode, bmc: Bmc, desired: map<string, string>, store: Store, tags: Option<Tags>)
    requires desired != map[] && Fetched(bmc, desired, store) == tags && bmc.attrs.Some?
    requires forall k :: k in desired ==> KeyDiff(m, k, desired[k], bmc.attrs.value, store, tags).None?
    requires forall k :: k in store ==> store[k].hash != NoFingerprint
    ensures EtagDiff(m, bmc, desired, store) == Computed(map[], tags, map[])
  {
    assert DiffOf(m, desired, bmc.attrs.value, store, tags) == map[];
    assert Backfill(m, desired, map[], store, tags) == map[];
  }

  /** The group {a} of a settings flow is checked alone and finds nothing. */
  lemma GroupCheckFindsNothing(m: Mode, bmc: Bmc)
    requires ChangedOutside(bmc)
    ensures FindsNothing(EtagDiff(m, bmc, map["a" := "x"], TwoKeys("1")))
  {
    var desired := map["a" := "x"];
    OneUriFetched(bmc, desired, "1");
    NothingToReport(m, bmc, desired, TwoKeys("1"), Some(map["/r" := "2"]));
  }

  /** What that check persists adopts the new ETag for "b" as well, which it never looked at. */
  lemma GroupCheckAdoptsForeignKey()
    ensures Persisted(TwoKeys("1"), Some(map["/r" := "2"]), {}, map[]) == TwoKeys("2")
  {
    var store, tags := TwoKeys("1"), map["/r" := "2"];
    PersistedRefresh(store, tags, "a");
    PersistedRefresh(store, tags, "b");
    assert Persisted(store, Some(tags), {}, map[]).Keys == store.Keys;
  }

  /** A check with an empty diff refreshes every stored key of a changed resource, evaluated or not. */
  lemma PersistedRefresh(store: Store, tags: Tags, key: string)
    requires key in store && Refreshes(store[key], tags)
    ensures var after := Persisted(store, Some(tags), {}, map[]);
            key in after && after[key] == store[key].(etag := tags[store[key].uri])
  {
    assert RefreshedETags(store, Some(tags), {})[key] == store[key].(etag := tags[store[key].uri]);
  }

  /** From then on the check of {a, b} takes "b" for unchanged although it drifts. */
  lemma SharedResourceDriftIsMissed(m: Mode, bmc: Bmc)
    requires ChangedOutside(bmc)
    ensures FindsNothing(EtagDiff(m, bmc, map["a" := "x", "b" := "y"], TwoKeys("2")))
    ensures Drifts(m.coerce, "b", "y", bmc.attrs.value)
  {
    var tags := Some(map["/r" := "2"]);
    var desired := map["a" := "x", "b" := "y"];
    OneUriFetched(bmc, desired, "2");
    assert KeyPlan("a", "x", TwoKeys("2"), tags, m.policy) == Unchanged;
    assert KeyPlan("b", "y", TwoKeys("2"), tags, m.policy) == Unchanged;
    NothingToReport(m, bmc, desired, TwoKeys("2"), tags);
  }
}
