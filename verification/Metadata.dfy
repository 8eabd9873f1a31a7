// Cache bindings and tag mappings: internal/metadata/cache_bindings.go, sqlite_cache_bindings.go,
// repository.go and sqlite_repository.go.

module Metadata {
  import opened Text
  import opened Ordering
  import opened Content

  datatype RecordError = InvalidRecord

  datatype Access = Challenge | CurrentUserRequired | Proxy

  datatype Kind = ManifestObject | BlobObject

  // What makes a binding unique.
  datatype Key = Key(logical: string, route: string, source: string, manifest: string, digest: string, access: Access,
                     user: string)

  datatype Binding = Binding(key: Key, physical: string, kind: Kind, createdAt: int, updatedAt: int)

  predicate ValidBinding(b: Binding) {
    && b.key.logical != "" && b.key.route != "" && b.key.source != "" && b.physical != ""
    && b.key.manifest != "" && b.key.digest != ""
    && (b.key.access == CurrentUserRequired <==> b.key.user != "")
  }

  function IndexOf(rows: seq<Binding>, key: Key): (i: nat)
    ensures i <= |rows| && (i < |rows| ==> rows[i].key == key)
  {
    if rows == [] || rows[0].key == key then 0 else 1 + IndexOf(rows[1..], key)
  }

  predicate HasKey(rows: seq<Binding>, key: Key) { exists b | b in rows :: b.key == key }

  predicate KeysDiffer(rows: seq<Binding>) { forall i, j | 0 <= i < j < |rows| :: rows[i].key != rows[j].key }

  lemma {:induction false} IndexFindsKey(rows: seq<Binding>, key: Key)
    ensures IndexOf(rows, key) < |rows| <==> HasKey(rows, key)
  {
    if rows != [] {
      assert rows == [rows[0]] + rows[1..];
      IndexFindsKey(rows[1..], key);
      if HasKey(rows, key) && rows[0].key != key {
        var b :| b in rows && b.key == key;
        assert b in rows[1..];
      }
    }
  }

  // The row a save leaves: a conflicting row keeps its creation time and gets a later update time.
  function Upserted(rows: seq<Binding>, b: Binding, now: int): seq<Binding> {
    var i := IndexOf(rows, b.key);
    if i == |rows| then rows + [b.(createdAt := now, updatedAt := now)]
    else
      var updated := if rows[i].updatedAt >= now then rows[i].updatedAt + 1 else now;
      rows[i := b.(createdAt := rows[i].createdAt, updatedAt := updated)]
  }

  function AllUpserted(rows: seq<Binding>, bindings: seq<Binding>, now: int): seq<Binding>
    decreases |bindings|
  {
    if bindings == [] then rows else AllUpserted(Upserted(rows, bindings[0], now), bindings[1..], now)
  }

  function Recorded(rows: seq<Binding>, bindings: seq<Binding>, now: int): Result<seq<Binding>, RecordError> {
    if exists b | b in bindings ::
      !ValidBinding(b) then Failure(InvalidRecord) else Success(AllUpserted(rows, bindings, now))
  }

  /** Bindings are saved exactly if each names a repository, a route, a source, a physical repository, a manifest and an
      object, and a user just when it requires the current one. */
  lemma RecordedIff(rows: seq<Binding>, bindings: seq<Binding>, now: int)
    ensures Recorded(rows, bindings, now).Success? <==>
            forall b :: b in bindings ==>
              && "" !in [b.key.logical, b.key.route, b.key.source, b.physical, b.key.manifest, b.key.digest]
              && (b.key.user == "" <==> b.key.access != CurrentUserRequired)
  {}

  lemma UpsertAdds(rows: seq<Binding>, b: Binding, now: int, key: Key)
    ensures HasKey(Upserted(rows, b, now), key) <==> HasKey(rows, key) || key == b.key
    ensures KeysDiffer(rows) ==> KeysDiffer(Upserted(rows, b, now))
  {
    var i, after := IndexOf(rows, b.key), Upserted(rows, b, now);
    IndexFindsKey(rows, b.key);
    assert after[i].key == b.key && after[i] in after;
    if HasKey(rows, key) {
      var earlier :| earlier in rows && earlier.key == key;
      var k :| 0 <= k < |rows| && rows[k] == earlier;
      assert after[k] in after && after[k].key == key;
    }
    if HasKey(after, key) && key != b.key {
      var later :| later in after && later.key == key;
      assert later in rows;
    }
    assert forall k :: 0 <= k < |rows| ==> rows[k] in rows;
  }

  /** Saving a binding leaves one row for its key, with what it says, and every other row as and where it was. A row
      that was there keeps its creation time and gets a later update time. */
  lemma UpsertStores(rows: seq<Binding>, b: Binding, now: int) returns (i: nat)
    ensures var after := Upserted(rows, b, now);
            && i < |after| && after[i] == b.(createdAt := after[i].createdAt, updatedAt := after[i].updatedAt)
            && (forall k :: 0 <= k < |rows| && k != i ==> k < |after| && after[k] == rows[k])
            && (if HasKey(rows, b.key) then
                  && |after| == |rows| && rows[i].key == b.key && after[i].createdAt == rows[i].createdAt
                  && after[i].updatedAt > rows[i].updatedAt && after[i].updatedAt >= now
                  && (after[i].updatedAt == now || after[i].updatedAt == rows[i].updatedAt + 1)
                else |after| == |rows| + 1 && i == |rows| && after[i].createdAt == after[i].updatedAt == now)
  {
    IndexFindsKey(rows, b.key);
    i := IndexOf(rows, b.key);
  }

  /** Saving adds the keys it is given, loses none, adds no other, and keeps keys unique. */
  lemma {:induction false} RecordingAdds(rows: seq<Binding>, bindings: seq<Binding>, now: int, key: Key)
    ensures HasKey(AllUpserted(rows, bindings, now), key) <==> HasKey(rows, key) || HasKey(bindings, key)
    ensures KeysDiffer(rows) ==> KeysDiffer(AllUpserted(rows, bindings, now))
    decreases |bindings|
  {
    if bindings != [] {
      assert bindings == [bindings[0]] + bindings[1..];
      UpsertAdds(rows, bindings[0], now, key);
      RecordingAdds(Upserted(rows, bindings[0], now), bindings[1..], now, key);
      assert HasKey(bindings, key) <==> bindings[0].key == key || HasKey(bindings[1..], key);
    }
  }

  // ---------------------------------------------------------------- listing

  function Rank(access: Access): int {
    match access
    case Challenge => 0
    case CurrentUserRequired => 1
    case Proxy => 2
  }

  predicate Lower(a: string, b: string) { Below(a, b) && a != b }

  // ORDER BY source, manifest_digest, access, user_id.
  predicate KeyBelow(a: Key, b: Key) {
    || Lower(a.source, b.source)
    || (a.source == b.source && Lower(a.manifest, b.manifest))
    || (a.source == b.source && a.manifest == b.manifest && Rank(a.access) < Rank(b.access))
    || (a.source == b.source && a.manifest == b.manifest && a.access == b.access && Below(a.user, b.user))
  }

  const BY_KEY: (Binding, Binding) -> bool := (a: Binding, b: Binding) => KeyBelow(a.key, b.key)

  function ForObject(logical: string, route: string, digest: string): Binding -> bool {
    (b: Binding) => b.key.logical == logical && b.key.route == route && b.key.digest == digest
  }

  function BindingsOf(rows: seq<Binding>, logical: string, route: string, digest: string): seq<Binding> {
    StableSort(Kept(rows, ForObject(logical, route, digest)), BY_KEY)
  }

  lemma BelowAntisymmetric(a: string, b: string)
    requires Below(a, b) && Below(b, a)
    ensures a == b
  {
    if a != "" {
      BelowAntisymmetric(a[1..], b[1..]);
      assert a == [a[0]] + a[1..] && b == [b[0]] + b[1..];
    }
  }

  lemma LowerTransitive(a: string, b: string, c: string)
    requires Lower(a, b) && Lower(b, c)
    ensures Lower(a, c)
  {
    BelowTransitive(a, b, c);
    if a == c { BelowAntisymmetric(a, b); }
  }

  lemma KeyOrderIsTotal(a: Key, b: Key, c: Key)
    ensures KeyBelow(a, b) || KeyBelow(b, a)
    ensures KeyBelow(a, b) && KeyBelow(b, c) ==> KeyBelow(a, c)
  {
    BelowConnex(a.source, b.source);
    BelowConnex(a.manifest, b.manifest);
    BelowConnex(a.user, b.user);
    if KeyBelow(a, b) && KeyBelow(b, c) {
      if Lower(a.source, b.source) && Lower(b.source, c.source) { LowerTransitive(a.source, b.source, c.source); }
      if Lower(a.manifest, b.manifest)
        && Lower(b.manifest, c.manifest) { LowerTransitive(a.manifest, b.manifest, c.manifest); }
      if Below(a.user, b.user) && Below(b.user, c.user) { BelowTransitive(a.user, b.user, c.user); }
    }
  }

  function AccessText(access: Access): string {
    match access
    case Challenge => "challenge"
    case CurrentUserRequired => "current_user_required"
    case Proxy => "proxy"
  }

  lemma {:induction false} Sooner(a: string, b: string, k: nat)
    requires k < |a| && k < |b| && a[..k] == b[..k] && a[k] < b[k]
    ensures Below(a, b) && !Below(b, a)
  {
    if k > 0 {
      assert a[0] == a[..k][0] == b[..k][0] == b[0];
      assert a[1..][..k - 1] == a[..k][1..] == b[..k][1..] == b[1..][..k - 1];
      Sooner(a[1..], b[1..], k - 1);
    }
  }

  lemma AccessInTextOrder(a: Access, b: Access)
    ensures Rank(a) <= Rank(b) <==> Below(AccessText(a), AccessText(b))
  {
    BelowConnex(AccessText(a), AccessText(a));
    var k := if a.Proxy? || b.Proxy? then 0 else 1;
    if Rank(a) < Rank(b) {
      Sooner(AccessText(a), AccessText(b), k);
    } else if Rank(b) < Rank(a) {
      Sooner(AccessText(b), AccessText(a), k);
    }
  }

  // Each field decides where those before it agree.
  predicate Before(a: Key, b: Key) {
    && Below(a.source, b.source)
    && (a.source == b.source ==> Below(a.manifest, b.manifest))
    && (a.source == b.source && a.manifest == b.manifest ==> Below(AccessText(a.access), AccessText(b.access)))
    && (a.source == b.source && a.manifest == b.manifest && a.access == b.access ==> Below(a.user, b.user))
  }

  lemma KeyOrderIsByField(a: Key, b: Key)
    ensures KeyBelow(a, b) <==> Before(a, b)
  {
    AccessInTextOrder(a.access, b.access);
    AccessInTextOrder(b.access, a.access);
    BelowConnex(a.source, a.source);
    BelowConnex(a.manifest, a.manifest);
  }

  /** ListCacheBindings returns the rows of the object, all of them, ordered by source, manifest, access and user. */
  lemma ListingIsExact(rows: seq<Binding>, logical: string, route: string, digest: string)
    ensures var listed := BindingsOf(rows, logical, route, digest);
            && (forall i, j :: 0 <= i < j < |listed| ==> Before(listed[i].key, listed[j].key))
            && Sorted(listed, BY_KEY)
            && (forall b :: b in listed <==>
                b in rows && b.key.logical == logical && b.key.route == route && b.key.digest == digest)
  {
    var mine := Kept(rows, ForObject(logical, route, digest));
    assert TotalPreorder(BY_KEY) by {
      forall x: Binding, y: Binding ensures BY_KEY(x, y) || BY_KEY(y, x) { KeyOrderIsTotal(x.key, y.key, y.key); }
      forall x: Binding, y: Binding, z: Binding | BY_KEY(x, y) && BY_KEY(y, z) ensures BY_KEY(x, z) {
        KeyOrderIsTotal(x.key, y.key, z.key);
      }
    }
    StableSortSorts(mine, BY_KEY);
    SameElements(StableSort(mine, BY_KEY), mine);
    KeptSound(rows, ForObject(logical, route, digest));
    var listed := BindingsOf(rows, logical, route, digest);
    forall i, j | 0 <= i < j < |listed| ensures Before(listed[i].key, listed[j].key) {
      assert BY_KEY(listed[i], listed[j]);
      KeyOrderIsByField(listed[i].key, listed[j].key);
    }
  }

  // ---------------------------------------------------------------- tag mappings

  datatype TagMapping = TagMapping(digest: string, mediaType: string, size: int, blobs: seq<string>, source: string,
                                   route: string, resolvedAt: int, freshUntil: int)

  // Keyed by logical repository and tag.
  type Tags = map<(string, string), TagMapping>

  predicate ValidMapping(logical: string, tag: string, m: TagMapping) {
    && logical != "" && tag != "" && m.digest != "" && m.mediaType != "" && m.source != "" && m.route != ""
       && m.size >= 0
  }

  function MappingRecorded(tags: Tags, logical: string, tag: string, m: TagMapping,
                           now: int): Result<Tags, RecordError> {
    if ValidMapping(logical, tag, m)
      then Success(tags[(logical, tag) := if m.resolvedAt == 0 then m.(resolvedAt := now) else m])
    else Failure(InvalidRecord)
  }

  /** A mapping is recorded exactly if it and its tag name everything they should, and then replaces only the one of
      that tag; a mapping without a time is resolved now. */
  lemma MappingIff(tags: Tags, logical: string, tag: string, m: TagMapping, now: int)
    ensures var r := MappingRecorded(tags, logical, tag, m, now);
            && (r.Success? <==> "" !in [logical, tag, m.digest, m.mediaType, m.source, m.route] && 0 <= m.size)
            && (r.Success? ==>
                  && (logical, tag) in r.value
                  && var row := r.value[(logical, tag)];
                     && r.value == tags[(logical, tag) := row] && row == m.(resolvedAt := row.resolvedAt)
                     && row.resolvedAt == (if m.resolvedAt != 0 then m.resolvedAt else now))
  {}

  class Repository {
    var bindings: seq<Binding>
    var tags: Tags

    constructor ()
      ensures bindings == [] && tags == map[]
    {
      bindings, tags := [], map[];
    }

    method Upsert(b: Binding, now: int)
      modifies this`bindings
      ensures bindings == Upserted(old(bindings), b, now)
    {
      var at := 0;
      while at < |bindings| && bindings[at].key != b.key
        invariant at <= |bindings| && IndexOf(bindings, b.key) == at + IndexOf(bindings[at..], b.key)
      {
        assert bindings[at..][1..] == bindings[at + 1..];
        at := at + 1;
      }
      if at == |bindings| {
        bindings := bindings + [b.(createdAt := now, updatedAt := now)];
      } else {
        var updated := if bindings[at].updatedAt >= now then bindings[at].updatedAt + 1 else now;
        bindings := bindings[at := b.(createdAt := bindings[at].createdAt, updatedAt := updated)];
      }
    }

    method RecordCacheBindings(added: seq<Binding>, now: int) returns (r: Result<(), RecordError>)
      modifies this`bindings
      ensures r.Success? <==> Recorded(old(bindings), added, now).Success?
      ensures bindings == if r.Success? then Recorded(old(bindings), added, now).value else old(bindings)
    {
      for i := 0 to |added|
        invariant forall b :: b in added[..i] ==> ValidBinding(b)
        invariant bindings == old(bindings)
      {
        if !ValidBinding(added[i]) {
          assert added[i] in added;
          return Failure(InvalidRecord);
        }
      }
      assert added[..|added|] == added && added[0..] == added;
      for i := 0 to |added|
        invariant AllUpserted(bindings, added[i..], now) == AllUpserted(old(bindings), added, now)
      {
        assert added[i..][1..] == added[i + 1..];
        Upsert(added[i], now);
      }
      r := Success(());
    }

    method ListCacheBindings(logical: string, route: string, digest: string) returns (r: seq<Binding>)
      ensures r == BindingsOf(bindings, logical, route, digest)
    {
      var found: seq<Binding> := [];
      assert bindings[..|bindings|] == bindings;
      for i := 0 to |bindings|
        invariant found == Kept(bindings[..i], ForObject(logical, route, digest))
      {
        var b := bindings[i];
        assert bindings[..i + 1] == bindings[..i] + [b];
        KeptConcat(bindings[..i], [b], ForObject(logical, route, digest));
        if b.key.logical == logical && b.key.route == route && b.key.digest == digest {
          found := found + [b];
        }
      }
      r := StableSort(found, BY_KEY);
    }

    method RecordTagMapping(logical: string, tag: string, m: TagMapping, now: int) returns (r: Result<(), RecordError>)
      modifies this`tags
      ensures r.Success? <==> MappingRecorded(old(tags), logical, tag, m, now).Success?
      ensures tags == if r.Success? then MappingRecorded(old(tags), logical, tag, m, now).value else old(tags)
    {
      if !ValidMapping(logical, tag, m) { return Failure(InvalidRecord); }
      var row := m;
      if row.resolvedAt == 0 { row := row.(resolvedAt := now); }
      tags := tags[(logical, tag) := row];
      r := Success(());
    }
  }
}
