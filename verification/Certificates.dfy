/** The passes that turn certificates with a ready-made key pair into TLS
    secrets before a sync and back into certificates after it, rewriting the
    resource maps in place while ranging over them.
    Models convertCertificateToSecret, convertSecretToCertificate and parseKey
    of pkg/gitops/gitops_sync.go. */
module Certificates {
  import opened Common
  import opened ResourceKeys
  import opened Labels
  import opened Rekeying

  /** A resource of the sync maps. Its manifest stands for its bytes. */
  datatype Resource = Resource(source: string, kind: string, name: string, manifest: Manifest, originalKey: string)

  type Resources = map<string, Resource>

  function Id(r: Resource): string {
    Key(r.kind, r.name)
  }

  /** Every entry is filed under its own resource ID. */
  ghost predicate Keyed(m: Resources) {
    forall k :: k in m ==> k == Id(m[k])
  }

  /** A Go map: a reference, so that two variables can denote the same map. */
  class ResourceMap {
    var m: Resources

    constructor (m: Resources)
      ensures this.m == m
    {
      this.m := m;
    }

    /** for _, key := range keys { delete(m, key) } */
    method DeleteAll(keys: seq<string>)
      modifies this
      ensures m == old(m) - Elements(keys)
    {
      for i := 0 to |keys|
        invariant m == old(m) - Elements(keys[..i])
      {
        ElementsOfPrefix(keys, i);
        m := m - {keys[i]};
      }
      assert keys[..|keys|] == keys;
    }
  }

  /** The outcome of ConvertCertificate on a manifest. */
  datatype Conversion = NotConverted | Failed | Converted(manifest: Manifest)

  type Converter = (string, Manifest) -> Conversion

  const CONVERTING_VERSION := "1.1.1"

  function NewKey(key: string): string {
    "secret/" + ParseKey(key)
  }

  /** The manifest that is converted for a repository key: the changed one if
      the key is among the changed resources. */
  function ManifestFor(repo: Resources, changed: Resources, key: string): Manifest
    requires key in repo
  {
    if key in changed then changed[key].manifest else repo[key].manifest
  }

  predicate Converts(repo: Resources, changed: Resources, conv: Converter, key: string) {
    key in repo && repo[key].kind == "Certificate" && conv(key, ManifestFor(repo, changed, key)).Converted?
  }

  /** The secrets that the forward pass makes, by the key of their certificate. */
  function Secrets(repo: Resources, changed: Resources, conv: Converter): Resources {
    map k | k in repo && Converts(repo, changed, conv, k) ::
      Resource(repo[k].source, "Secret", repo[k].name, conv(k, ManifestFor(repo, changed, k)).manifest, k)
  }

  /** Exactly which secrets the forward pass makes: one for each certificate of the
      repository that converts in its newest version, with the certificate's name
      and source file and the converted manifest. */
  lemma SecretsAre(repo: Resources, changed: Resources, conv: Converter, k: string)
    ensures k in Secrets(repo, changed, conv) <==>
      k in repo && repo[k].kind == "Certificate" && conv(k, if k in changed then changed[k].manifest else repo[k].manifest).Converted?
    ensures k in Secrets(repo, changed, conv) ==>
      var r := Secrets(repo, changed, conv)[k];
      && r.kind == "Secret" && r.name == repo[k].name && r.source == repo[k].source && r.originalKey == k
      && conv(k, if k in changed then changed[k].manifest else repo[k].manifest) == Converted(r.manifest)
  {
  }

  /** `made` as Secrets makes it: secrets that remember the key of the
      certificate they come from, which is the certificate's own ID. */
  ghost predicate FromCertificates(made: Resources) {
    forall c :: c in made ==> made[c].kind == "Secret" && made[c].originalKey == c && c == Key("Certificate", made[c].name)
  }

  lemma FirstLetters(name: string, key: string)
    ensures Key("Certificate", name)[0] == 'c' && NewKey(key)[0] == 's'
  {
    assert ToLower("Certificate")[0] == 'c';
  }

  lemma SecretsMade(repo: Resources, changed: Resources, conv: Converter)
    requires Keyed(repo)
    ensures FromCertificates(Secrets(repo, changed, conv))
  {
  }

  lemma NewKeysAreNew(made: Resources)
    requires FromCertificates(made)
    ensures NewKeys(made, NewKey) !! made.Keys
  {
    forall c | c in made ensures c !in NewKeys(made, NewKey) {
      forall d | d in made ensures NewKey(d) != c { FirstLetters(made[c].name, d); }
    }
  }

  /** A certificate met while ranging is an original entry. */
  lemma MetCertificate(m: Resources, base: Resources, made: Resources, seen: set<string>, moved: seq<string>, key: string)
    requires Midway(m, base, made, NewKey, seen, moved) && Keyed(base) && FromCertificates(made)
    requires key in m && m[key].kind == "Certificate"
    ensures key in base && m[key] == base[key] && |key| > 0 && key[0] == 'c'
  {
    if key !in NewKeys(Restrict(made, seen), NewKey) { FirstLetters(base[key].name, key); }
  }

  /** Original certificates are still there, and their keys are unaffected. */
  lemma CertificateKept(m: Resources, base: Resources, made: Resources, seen: set<string>, moved: seq<string>, key: string)
    requires Midway(m, base, made, NewKey, seen, moved) && |key| > 0 && key[0] == 'c'
    ensures key in m <==> key in base
    ensures key in m ==> m[key] == base[key]
  {
    forall c | c in made ensures NewKey(c) != key { FirstLetters("", c); }
  }

  /** The forward pass over the repository map and the changed map, which an
      initial sync makes one and the same map. `order` is the sequence in which
      the range statement offers keys: all keys present at the start, and any
      others, which count only once they have been inserted. */
  method ConvertCertificateToSecret(version: string, repo: ResourceMap, changed: ResourceMap, conv: Converter,
                                    order: seq<string>)
    requires Distinct(order) && repo.m.Keys <= Elements(order)
    requires Keyed(repo.m)
    modifies repo, changed
    ensures version != CONVERTING_VERSION ==> repo.m == old(repo.m) && changed.m == old(changed.m)
    ensures version == CONVERTING_VERSION ==>
              var made := Secrets(old(repo.m), old(changed.m), conv);
              && Swapped(repo.m, old(repo.m), made, NewKey)
              && Swapped(changed.m, old(changed.m), Restrict(made, old(changed.m).Keys), NewKey)
  {
    if version != CONVERTING_VERSION { return; }
    var repoKeysToDelete, changedKeysToDelete := [], [];
    ghost var oldRepo, oldChanged, seen := repo.m, changed.m, {};
    ghost var made := Secrets(oldRepo, oldChanged, conv);
    ghost var madeChanged := Restrict(made, oldChanged.Keys);
    SecretsMade(oldRepo, oldChanged, conv);
    MidwayStart(oldRepo, made, NewKey);
    MidwayStart(oldChanged, madeChanged, NewKey);
    for i := 0 to |order|
      invariant seen == Elements(order[..i])
      invariant repo == changed ==> oldRepo == oldChanged && repoKeysToDelete == changedKeysToDelete
      invariant Midway(repo.m, oldRepo, made, NewKey, seen, repoKeysToDelete)
      invariant Midway(changed.m, oldChanged, madeChanged, NewKey, seen, changedKeysToDelete)
    {
      var key := order[i];
      ElementsOfPrefix(order, i);
      var found, secret, wasChanged := ConvertOne(repo, changed, conv, key, oldRepo, oldChanged, seen, repoKeysToDelete, changedKeysToDelete);
      if found {
        repoKeysToDelete, changedKeysToDelete := FileSecret(repo, changed, key, NewKey, secret, wasChanged,
          repoKeysToDelete, changedKeysToDelete, oldRepo, oldChanged, made, seen);
      } else {
        MidwayStep(repo.m, oldRepo, made, NewKey, seen, repoKeysToDelete, key);
        MidwayStep(changed.m, oldChanged, madeChanged, NewKey, seen, changedKeysToDelete, key);
      }
      seen := seen + {key};
    }
    assert order[..|order|] == order;
    NewKeysAreNew(made);
    NewKeysAreNew(madeChanged);
    DropMoved(repo, changed, NewKey, repoKeysToDelete, changedKeysToDelete, oldRepo, oldChanged, made, seen);
  }

  /** The map writes of the range loop: file a new secret in the repository
      map and, if its certificate was changed, in the changed map. */
  method FileSecret(repo: ResourceMap, changed: ResourceMap, key: string, rename: string -> string, secret: Resource,
                    wasChanged: bool, moved: seq<string>, movedChanged: seq<string>,
                    ghost oldRepo: Resources, ghost oldChanged: Resources, ghost made: Resources, ghost seen: set<string>)
    returns (moved': seq<string>, movedChanged': seq<string>)
    requires Midway(repo.m, oldRepo, made, rename, seen, moved)
    requires Midway(changed.m, oldChanged, Restrict(made, oldChanged.Keys), rename, seen, movedChanged)
    requires repo == changed ==> oldRepo == oldChanged && made.Keys <= oldChanged.Keys && moved == movedChanged
    requires key !in seen && key in made && secret == made[key] && (wasChanged <==> key in oldChanged)
    modifies repo, changed
    ensures Midway(repo.m, oldRepo, made, rename, seen + {key}, moved')
    ensures Midway(changed.m, oldChanged, Restrict(made, oldChanged.Keys), rename, seen + {key}, movedChanged')
    ensures repo == changed ==> moved' == movedChanged'
  {
    MidwayStep(repo.m, oldRepo, made, rename, seen, moved, key);
    MidwayStep(changed.m, oldChanged, Restrict(made, oldChanged.Keys), rename, seen, movedChanged, key);
    moved', movedChanged' := moved + [key], movedChanged;
    repo.m := repo.m[rename(key) := secret];
    if wasChanged {
      movedChanged' := movedChanged + [key];
      changed.m := changed.m[rename(key) := secret];
    }
  }

  /** The two delete loops after the range. */
  method DropMoved(repo: ResourceMap, changed: ResourceMap, ghost rename: string -> string,
                   moved: seq<string>, movedChanged: seq<string>,
                   ghost oldRepo: Resources, ghost oldChanged: Resources, ghost made: Resources, ghost seen: set<string>)
    requires Midway(repo.m, oldRepo, made, rename, seen, moved)
    requires Midway(changed.m, oldChanged, Restrict(made, oldChanged.Keys), rename, seen, movedChanged)
    requires repo == changed ==> oldRepo == oldChanged && made.Keys <= oldChanged.Keys && moved == movedChanged
    requires made.Keys <= seen && NewKeys(made, rename) !! made.Keys
    requires NewKeys(Restrict(made, oldChanged.Keys), rename) !! Restrict(made, oldChanged.Keys).Keys
    modifies repo, changed
    ensures Swapped(repo.m, oldRepo, made, rename)
    ensures Swapped(changed.m, oldChanged, Restrict(made, oldChanged.Keys), rename)
  {
    MidwayEnd(repo.m, oldRepo, made, rename, seen, moved);
    MidwayEnd(changed.m, oldChanged, Restrict(made, oldChanged.Keys), rename, seen, movedChanged);
    repo.DeleteAll(moved);
    changed.DeleteAll(movedChanged);
  }

  /** The body of the range loop up to its map writes: is the entry offered
      under `key` a certificate that converts, to what, and was it changed? */
  method ConvertOne(repo: ResourceMap, changed: ResourceMap, conv: Converter, key: string,
                    ghost oldRepo: Resources, ghost oldChanged: Resources, ghost seen: set<string>,
                    ghost moved: seq<string>, ghost movedChanged: seq<string>)
    returns (found: bool, secret: Resource, wasChanged: bool)
    requires Keyed(oldRepo) && (repo == changed ==> oldRepo == oldChanged)
    requires var made := Secrets(oldRepo, oldChanged, conv);
             && Midway(repo.m, oldRepo, made, NewKey, seen, moved)
             && Midway(changed.m, oldChanged, Restrict(made, oldChanged.Keys), NewKey, seen, movedChanged)
    requires key in oldRepo ==> key in repo.m
    ensures found <==> key in Secrets(oldRepo, oldChanged, conv)
    ensures found ==> secret == Secrets(oldRepo, oldChanged, conv)[key] && (wasChanged <==> key in oldChanged)
  {
    found, secret, wasChanged := false, Resource("", "", "", Manifest("", "", map[], false, ""), ""), false;
    ghost var made := Secrets(oldRepo, oldChanged, conv);
    SecretsMade(oldRepo, oldChanged, conv);
    if key in oldRepo && oldRepo[key].kind == "Certificate" {
      FirstLetters(oldRepo[key].name, key);
      CertificateKept(repo.m, oldRepo, made, seen, moved, key);
    }
    if key in repo.m && repo.m[key].kind == "Certificate" {
      MetCertificate(repo.m, oldRepo, made, seen, moved, key);
      CertificateKept(changed.m, oldChanged, Restrict(made, oldChanged.Keys), seen, movedChanged, key);
      var manifest := if key in changed.m then changed.m[key].manifest else repo.m[key].manifest;
      var conversion := conv(key, manifest);
      if conversion.Converted? {
        found, wasChanged := true, key in changed.m;
        secret := Resource(repo.m[key].source, "Secret", repo.m[key].name, conversion.manifest, key);
      }
    }
  }

  // ----- The reverse pass -----

  predicate IsConverted(r: Resource) {
    r.kind == "Secret" && r.originalKey != ""
  }

  /** The converted secrets of a map, turned back into certificates. */
  function Restored(m: Resources): Resources {
    map k | k in m && IsConverted(m[k]) :: m[k].(kind := "Certificate")
  }

  function OriginalKeys(m: Resources): string -> string {
    k => if k in m then m[k].originalKey else k
  }

  /** The reverse pass, for any range order of the changed map (see the forward
      pass for `order`). The old entry of a restored certificate is the same
      object in the source; it is deleted after the range. */
  method ConvertSecretToCertificate(version: string, changed: ResourceMap, order: seq<string>)
    requires Distinct(order) && changed.m.Keys <= Elements(order)
    requires NewKeys(Restored(changed.m), OriginalKeys(changed.m)) !! Restored(changed.m).Keys
    modifies changed
    ensures version != CONVERTING_VERSION ==> changed.m == old(changed.m)
    ensures version == CONVERTING_VERSION ==>
              Swapped(changed.m, old(changed.m), Restored(old(changed.m)), OriginalKeys(old(changed.m)))
  {
    if version != CONVERTING_VERSION { return; }
    var keysToDelete := [];
    ghost var base, seen := changed.m, {};
    ghost var made, rename := Restored(base), OriginalKeys(base);
    MidwayStart(base, made, rename);
    for i := 0 to |order|
      invariant seen == Elements(order[..i])
      invariant Midway(changed.m, base, made, rename, seen, keysToDelete)
    {
      var key := order[i];
      ElementsOfPrefix(order, i);
      MetConverted(changed.m, base, seen, keysToDelete, key);
      MidwayStep(changed.m, base, made, rename, seen, keysToDelete, key);
      if key in changed.m && IsConverted(changed.m[key]) {
        var certificate := changed.m[key].(kind := "Certificate");
        keysToDelete := keysToDelete + [key];
        changed.m := changed.m[certificate.originalKey := certificate];
      }
      seen := seen + {key};
    }
    assert order[..|order|] == order;
    MidwayEnd(changed.m, base, made, rename, seen, keysToDelete);
    changed.DeleteAll(keysToDelete);
  }

  /** The secrets met while ranging are exactly those converted at the start. */
  lemma MetConverted(m: Resources, base: Resources, seen: set<string>, moved: seq<string>, key: string)
    requires Midway(m, base, Restored(base), OriginalKeys(base), seen, moved) && key !in seen
    requires NewKeys(Restored(base), OriginalKeys(base)) !! Restored(base).Keys
    ensures key in m && IsConverted(m[key]) <==> key in Restored(base)
    ensures key in Restored(base) ==> m[key] == base[key]
  {
    var made, rename := Restored(base), OriginalKeys(base);
    var part := Restrict(made, seen);
    assert NewKeys(part, rename) <= NewKeys(made, rename);
    if key in m && key in NewKeys(part, rename) {
      assert Won(m, part, rename, key);
      assert m[key].kind == "Certificate";
    }
  }

  // ----- Both passes together -----

  /** What the changed map is between and after the passes, starting from
      `before`, in which `made` are the secrets of the certificates that convert. */
  ghost predicate Passed(before: Resources, made: Resources, between: Resources, after: Resources) {
    && FromCertificates(made) && made.Keys <= before.Keys
    && (forall k :: k in before ==> before[k].originalKey == "")
    && Swapped(between, before, made, NewKey)
    && Swapped(after, between, Restored(between), OriginalKeys(between))
  }

  function Final(made: Resources): Resources {
    map c | c in made :: made[c].(kind := "Certificate")
  }

  /** The entry under a new key is a converted secret that remembers a
      certificate with that new key. */
  lemma ConvertedAt(before: Resources, made: Resources, between: Resources, k: string)
    requires FromCertificates(made) && Swapped(between, before, made, NewKey) && k in NewKeys(made, NewKey)
    ensures k in between && IsConverted(between[k])
    ensures var c := between[k].originalKey; c in made && NewKey(c) == k && between[k] == made[c]
  {
    assert Won(between, made, NewKey, k);
    var c :| c in made && NewKey(c) == k && between[k] == made[c];
    FirstLetters(made[c].name, c);
  }

  /** Between the passes, the converted secrets are exactly the entries under
      the new keys; hence the reverse pass may be called. */
  lemma ConvertedBetween(before: Resources, made: Resources, between: Resources)
    requires FromCertificates(made) && Swapped(between, before, made, NewKey)
    requires forall k :: k in before ==> before[k].originalKey == ""
    ensures Restored(between).Keys == NewKeys(made, NewKey)
    ensures NewKeys(Restored(between), OriginalKeys(between)) !! Restored(between).Keys
  {
    forall k | k in NewKeys(made, NewKey) ensures k in Restored(between) && between[k].originalKey in made {
      ConvertedAt(before, made, between, k);
    }
    NewKeysAreNew(made);
  }

  lemma PassedThereAndBack(before: Resources, made: Resources, between: Resources, after: Resources)
    requires Passed(before, made, between, after)
    ensures ThereAndBack(before, made, NewKey, between, Restored(between), OriginalKeys(between), Final(made), after)
  {
    ConvertedBetween(before, made, between);
    NewKeysAreNew(made);
    forall k | k in Restored(between)
      ensures var c := OriginalKeys(between)(k);
              c in made && NewKey(c) == k && Restored(between)[k] == Final(made)[c]
    {
      ConvertedAt(before, made, between, k);
    }
  }

  /** The reverse pass undoes the forward pass on the key set if and only if no
      converted certificate takes the key of a secret or of another one. With
      no such collision the map is as before, except that a converted
      certificate keeps the text of its secret. In every case each entry is
      filed under its own ID afterwards, so a look-up by ID never misses. */
  lemma RoundTrip(before: Resources, made: Resources, between: Resources, after: Resources)
    requires Passed(before, made, between, after) && Keyed(before)
    ensures after.Keys == before.Keys <==> NoCollision(before, made, NewKey)
    ensures Keyed(after)
    ensures forall k :: k in after ==> if k in made then after[k] == made[k].(kind := "Certificate") else k in before && after[k] == before[k]
  {
    PassedThereAndBack(before, made, between, after);
    KeysThereAndBack(before, made, NewKey, between, Restored(between), OriginalKeys(between), Final(made), after);
    forall k | k in after
      ensures if k in made then after[k] == made[k].(kind := "Certificate") else k in before && after[k] == before[k]
    {
      EntryAfter(before, made, between, after, k);
    }
  }

  lemma EntryAfter(before: Resources, made: Resources, between: Resources, after: Resources, k: string)
    requires Passed(before, made, between, after) && k in after
    ensures if k in made then after[k] == made[k].(kind := "Certificate") else k in before && after[k] == before[k]
  {
    PassedThereAndBack(before, made, between, after);
    EntriesThereAndBack(before, made, NewKey, between, Restored(between), OriginalKeys(between), Final(made), after, k);
  }

  /** For names without slashes, as Kubernetes requires, the collisions to avoid
      are exactly secrets named like a converted certificate; and between the
      passes, too, every entry is filed under its own ID. */
  lemma CollisionsAreSameNames(before: Resources, made: Resources)
    requires FromCertificates(made) && forall c :: c in made ==> '/' !in made[c].name
    ensures NoCollision(before, made, NewKey) <==> forall c :: c in made ==> Key("Secret", made[c].name) !in before
    ensures forall c :: c in made ==> NewKey(c) == Id(made[c])
  {
    forall c | c in made ensures NewKey(c) == Key("Secret", made[c].name) && NewKey(c) in NewKeys(made, NewKey) {
      NewKeyOfName(made[c].name);
    }
    forall c, d | c in made && d in made && NewKey(c) == NewKey(d) ensures c == d {
      KeyIsInjective("Secret", made[c].name, "Secret", made[d].name);
    }
  }

  lemma NewKeyOfName(name: string)
    requires '/' !in name
    ensures NewKey(Key("Certificate", name)) == Key("Secret", name)
  {
    ParseKeyOfKey("Certificate", name);
    assert ToLower("Secret") == "secret";
    assert "secret/" + name == "secret" + "/" + name;
  }
}
