/**
 Which keys an ETag check reads, which values a difference reports, and that writing it leaves no drift.
 */
module EtagValues {
  import opened Options
  import opened EtagDrift
  import opened EtagCoherence

  // ---------------------------------------------------------------- what is read

  /**
   Decided from the stored entry alone: applied by POST, or its resource still carries the recorded ETag and
   a fingerprint was recorded.
   */
  predicate DecidedUnread(key: string, store: Store, tags: Option<Tags>) {
    key in store &&
      var e := store[key];
      || e.post || (|key| >= 5 && key[..5] == "POST ")
      || (e.etag != "" && e.uri != "" && e.hash.Hmac? && tags.Some? && e.uri in tags.value && tags.value[e.uri] == e.etag)
  }

  lemma PlanOfKey(key: string, desired: string, store: Store, tags: Option<Tags>, policy: Policy)
    ensures DecidedUnread(key, store, tags) ==>
              KeyPlan(key, desired, store, tags, policy)
              == if store[key].hash != Hmac(desired) then Apply else if IsPostKey(key, Some(store[key])) then PostSkip else Unchanged
    ensures !DecidedUnread(key, store, tags) ==> KeyPlan(key, desired, store, tags, policy) == Get
  {
  }

  /** A check reads exactly the desired keys it cannot decide from their entries. */
  lemma ReadIff(m: Mode, desired: map<string, string>, store: Store, tags: Option<Tags>, key: string)
    ensures key in Asked(desired, store, tags, m.policy) <==> key in desired && !DecidedUnread(key, store, tags)
  {
    if key in desired {
      PlanOfKey(key, desired[key], store, tags, m.policy);
    }
  }

  /** It fails exactly when such a key exists and the reading cannot be had. */
  lemma CheckFailsIff(m: Mode, bmc: Bmc, desired: map<string, string>, store: Store)
    ensures EtagDiff(m, bmc, desired, store).Failed? <==>
              bmc.attrs.None? && exists k :: k in desired && !DecidedUnread(k, store, Fetched(bmc, desired, store))
  {
    var tags := Fetched(bmc, desired, store);
    var asked := Asked(desired, store, tags, m.policy);
    forall k
      ensures k in asked <==> k in desired && !DecidedUnread(k, store, tags)
    {
      ReadIff(m, desired, store, tags, k);
    }
    if asked != {} {
      var k :| k in asked;
    }
  }

  /** ETags are fetched for the resources of desired keys with a recorded ETag, and only those. */
  lemma FetchesIff(bmc: Bmc, desired: map<string, string>, store: Store, u: string)
    ensures u in FetchUris(desired, store) <==>
              exists k :: k in store && k in desired && store[k].uri == u && u != "" && store[k].etag != ""
    ensures var t := Fetched(bmc, desired, store);
            t.Some? ==> bmc.tags.Some? && (u in t.value <==> u in FetchUris(desired, store) && u in bmc.tags.value)
                        && (u in t.value ==> t.value[u] == bmc.tags.value[u])
    ensures Fetched(bmc, desired, store).None? <==> bmc.tags.None? || FetchUris(desired, store) == {}
  {
  }

  /** A key decided unread is reported exactly when its fingerprint is not that of the desired value. */
  lemma UnreadKeyIff(m: Mode, key: string, desired: string, attrs: Attrs, store: Store, tags: Option<Tags>)
    requires DecidedUnread(key, store, tags)
    ensures KeyDiff(m, key, desired, attrs, store, tags) == if store[key].hash != Hmac(desired) then Some(StrAttr(desired)) else None
  {
    PlanOfKey(key, desired, store, tags, m.policy);
  }

  /** A key without an entry, also one to be applied by POST, is reported when it is write-only or drifts. */
  lemma NewKeyIff(m: Mode, key: string, desired: string, attrs: Attrs, store: Store, tags: Option<Tags>)
    requires key !in store
    ensures KeyDiff(m, key, desired, attrs, store, tags).Some? <==> WriteOnly(key, attrs) || Drifts(m.coerce, key, desired, attrs)
  {
    PlanOfKey(key, desired, store, tags, m.policy);
  }

  // ---------------------------------------------------------------- drift, told without the comparison

  /** The reading says something else than the desired value, each type in its own terms. */
  predicate Differs(c: Coercions, desired: string, reading: Attr) {
    match reading
    case IntAttr(i) => c.atoi(desired) != Some(i)
    case FloatAttr(f) => c.parseFloat(desired) != Some(f)
    case BoolAttr(b) => c.parseBool(desired) != Some(b)
    case StrAttr(s) => s != desired
    case OtherAttr(r) => r != desired
    case Null => desired != "<nil>"
  }

  lemma DriftsIff(c: Coercions, key: string, desired: string, attrs: Attrs)
    ensures Drifts(c, key, desired, attrs) <==> key in attrs && attrs[key] != Null && Differs(c, desired, attrs[key])
  {
  }

  // ---------------------------------------------------------------- values

  /** The desired value in the type of the reading, or as it is when it does not parse or has no such type. */
  predicate InTypeOf(c: Coercions, desired: string, reading: Attr, v: Attr) {
    match reading
    case IntAttr(_) => v == (if c.atoi(desired).Some? then IntAttr(c.atoi(desired).value) else StrAttr(desired))
    case FloatAttr(_) => v == (if c.parseFloat(desired).Some? then FloatAttr(c.parseFloat(desired).value) else StrAttr(desired))
    case BoolAttr(_) => v == (if c.parseBool(desired).Some? then BoolAttr(c.parseBool(desired).value) else StrAttr(desired))
    case _ => v == StrAttr(desired)
  }

  lemma KeyValue(m: Mode, key: string, desired: string, attrs: Attrs, store: Store, tags: Option<Tags>)
    ensures var d := KeyDiff(m, key, desired, attrs, store, tags);
            d.Some? ==>
              if DecidedUnread(key, store, tags) || key !in attrs then d.value == StrAttr(desired)
              else InTypeOf(m.coerce, desired, attrs[key], d.value)
  {
    PlanOfKey(key, desired, store, tags, m.policy);
  }

  /** The value reported for a key: the desired one, in the type of the reading when it was read. */
  lemma ReportedValue(m: Mode, bmc: Bmc, desired: map<string, string>, store: Store, key: string)
    requires EtagDiff(m, bmc, desired, store).Computed? && key in EtagDiff(m, bmc, desired, store).diff
    ensures key in desired
    ensures var v, attrs := EtagDiff(m, bmc, desired, store).diff[key], bmc.attrs.GetOr(map[]);
            if DecidedUnread(key, store, Fetched(bmc, desired, store)) || key !in attrs then v == StrAttr(desired[key])
            else InTypeOf(m.coerce, desired[key], attrs[key], v)
  {
    KeyValue(m, key, desired[key], bmc.attrs.GetOr(map[]), store, Fetched(bmc, desired, store));
  }

  /** The fallback reports parsed values only, and strings for what is not read. */
  lemma FallbackValue(c: Coercions, bmc: Bmc, desired: map<string, string>, key: string)
    requires FallbackDiff(c, bmc, desired).Computed? && key in FallbackDiff(c, bmc, desired).diff
    ensures key in desired && bmc.attrs.Some?
    ensures var v, attrs := FallbackDiff(c, bmc, desired).diff[key], bmc.attrs.value;
            if key !in attrs then v == StrAttr(desired[key]) else InTypeOf(c, desired[key], attrs[key], v)
  {
  }

  /** The fallback fails exactly when nothing can be read or a number or boolean does not parse. */
  lemma FallbackFailsIff(c: Coercions, bmc: Bmc, desired: map<string, string>)
    ensures FallbackDiff(c, bmc, desired).Failed? <==>
              bmc.attrs.None? || exists k :: k in desired && k in bmc.attrs.value && Unparsable(c, desired[k], bmc.attrs.value[k])
  {
    if bmc.attrs.Some? {
      forall k | k in desired
        ensures FallbackKey(c, k, desired[k], bmc.attrs.value).ParseError? <==>
                  k in bmc.attrs.value && Unparsable(c, desired[k], bmc.attrs.value[k])
      {
      }
    }
  }

  predicate Unparsable(c: Coercions, desired: string, reading: Attr) {
    match reading
    case IntAttr(_) => c.atoi(desired).None?
    case FloatAttr(_) => c.parseFloat(desired).None?
    case BoolAttr(_) => c.parseBool(desired).None?
    case _ => false
  }

  /** A key that is write-only and has no entry is always reported by the fallback. */
  lemma FallbackReportsExactly(c: Coercions, key: string, desired: string, attrs: Attrs)
    ensures FallbackReports(c, key, desired, attrs) <==>
              || WriteOnly(key, attrs)
              || (!attrs[key].OtherAttr? && !Unparsable(c, desired, attrs[key]) && Differs(c, desired, attrs[key]))
  {
  }

  // ---------------------------------------------------------------- writing the difference

  lemma CoercedMatches(c: Coercions, desired: string, reading: Attr, v: Attr)
    requires InTypeOf(c, desired, reading, v) || v == StrAttr(desired)
    ensures !Differs(c, desired, v)
  {
  }

  /**
   Along every run of safe checks and applies: once the BMC has taken over what a check reported, no desired key
   drifts, unless nothing was stored and the key has a type the fallback does not handle.
   */
  lemma WritingHeals(m: Mode, reply: Bmc, desired: map<string, string>, home: map<string, string>, w: World, k: string)
    requires Good(m.coerce, home, w) && Answers(reply, w.attrs, w.tags)
    requires SettingsDiff(m, reply, desired, w.store).Computed?
    requires k in desired && !IsPostKey(k, Lookup(w.store, k))
    requires w.store != map[] || k !in w.attrs || !w.attrs[k].OtherAttr?
    ensures var after := w.attrs + SettingsDiff(m, reply, desired, w.store).diff;
            k in after && after[k] != Null ==> !Differs(m.coerce, desired[k], after[k])
  {
    var diff := SettingsDiff(m, reply, desired, w.store).diff;
    SettingsDiffSeesDrift(m, reply, desired, home, w, k);
    DriftsIff(m.coerce, k, desired[k], w.attrs);
    if k in diff {
      if w.store == map[] {
        FallbackValue(m.coerce, reply, desired, k);
      } else {
        ReportedValue(m, reply, desired, w.store, k);
      }
      CoercedMatches(m.coerce, desired[k], if reply.attrs.Some? && k in reply.attrs.value then reply.attrs.value[k] else Null, diff[k]);
    }
  }

  // ---------------------------------------------------------------- what an apply records

  /** An apply records where, at which ETag, with which value and how each key was applied, and nothing else. */
  lemma RecordsApply(store: Store, desired: map<string, string>, results: map<string, ApplyResult>, key: string)
    ensures var after := Recorded(store, desired, results);
            && (key in after <==> key in store || key in results)
            && (key in results ==>
                  && after[key].uri == results[key].uri && after[key].etag == results[key].etag && after[key].post == results[key].isPost
                  && (if key in desired then after[key].hash == Hmac(desired[key]) else after[key].hash == NoFingerprint))
            && (key in store && key !in results ==> after[key] == store[key])
  {
  }

  /** A check stores the new ETag of every key it did not report, and the fingerprints it can fill in. */
  lemma RefreshesIff(store: Store, tags: Tags, diff: set<string>, backfill: map<string, Fingerprint>, key: string)
    requires backfill.Keys <= store.Keys && key in store
    ensures var after := Persisted(store, Some(tags), diff, backfill);
            && after.Keys == store.Keys
            && after[key].uri == store[key].uri && after[key].post == store[key].post
            && after[key].hash == (if key in backfill then backfill[key] else store[key].hash)
            && after[key].etag == (if key !in diff && store[key].uri in tags && tags[store[key].uri] != "" then tags[store[key].uri]
                                   else store[key].etag)
  {
    PersistedEntry(store, tags, diff, backfill, key);
  }

  /** A fingerprint is filled in for the keys that were read, match, and had none next to their ETag. */
  lemma BackfillsIff(m: Mode, desired: map<string, string>, diff: Attrs, store: Store, tags: Option<Tags>, key: string)
    ensures var b := Backfill(m, desired, diff, store, tags);
            && (key in b <==> && tags.Some? && key in desired && key in store && key !in diff
                              && !DecidedUnread(key, store, tags) && store[key].etag != "" && store[key].hash == NoFingerprint)
            && (key in b ==> b[key] == Hmac(desired[key]))
  {
    ReadIff(m, desired, store, tags, key);
  }
}
