/** Moving entries of a map to new keys, as the range loops of the sync code do:
    insert under the new keys while ranging, delete the old keys afterwards. */
module Rekeying {

  /** New keys of the entries in `made`, which are listed by their old key. */
  ghost function NewKeys<K, V>(made: map<K, V>, rename: K -> K): set<K> {
    set c | c in made :: rename(c)
  }

  /** `k` holds one of the entries whose new key it is: when two compete for a
      key, one of them has it. */
  ghost predicate Won<K, V>(m: map<K, V>, made: map<K, V>, rename: K -> K, k: K)
    requires k in m
  {
    exists c :: c in made && rename(c) == k && m[k] == made[c]
  }

  /** `m` is `base` with the entries of `made` filed under their new keys. */
  ghost predicate Overlay<K, V>(m: map<K, V>, base: map<K, V>, made: map<K, V>, rename: K -> K) {
    && m.Keys == base.Keys + NewKeys(made, rename)
    && forall k :: k in m ==> if k in NewKeys(made, rename) then Won(m, made, rename, k) else k in base && m[k] == base[k]
  }

  /** Overlay, with the old keys removed. */
  ghost predicate Swapped<K, V>(m: map<K, V>, base: map<K, V>, made: map<K, V>, rename: K -> K) {
    && m.Keys == base.Keys - made.Keys + NewKeys(made, rename)
    && forall k :: k in m ==> if k in NewKeys(made, rename) then Won(m, made, rename, k) else k in base && m[k] == base[k]
  }

  lemma NewKeysMore<K, V>(made: map<K, V>, rename: K -> K, key: K, v: V)
    ensures NewKeys(made[key := v], rename) == NewKeys(made, rename) + {rename(key)}
  {
    var more := made[key := v];
    assert more.Keys == made.Keys + {key};
    forall k | k in NewKeys(made, rename) + {rename(key)} ensures k in NewKeys(more, rename) {
      if k != rename(key) { var c :| c in made && rename(c) == k; assert c in more; } else { assert key in more; }
    }
  }

  lemma OverlayStep<K, V>(m: map<K, V>, base: map<K, V>, made: map<K, V>, rename: K -> K, key: K, v: V)
    requires Overlay(m, base, made, rename) && key !in made
    ensures Overlay(m[rename(key) := v], base, made[key := v], rename)
  {
    var more, m' := made[key := v], m[rename(key) := v];
    NewKeysMore(made, rename, key, v);
    forall k | k in m' && k in NewKeys(more, rename) ensures Won(m', more, rename, k) {
      if k == rename(key) {
        assert key in more && more[key] == v;
      } else {
        assert Won(m, made, rename, k);
        var c :| c in made && rename(c) == k && m[k] == made[c];
        assert c in more && more[c] == made[c];
      }
    }
  }

  lemma OverlayToSwapped<K, V>(m: map<K, V>, base: map<K, V>, made: map<K, V>, rename: K -> K)
    requires Overlay(m, base, made, rename) && NewKeys(made, rename) !! made.Keys
    ensures Swapped(m - made.Keys, base, made, rename)
  {
    var m' := m - made.Keys;
    forall k | k in m' && k in NewKeys(made, rename) ensures Won(m', made, rename, k) {
      assert Won(m, made, rename, k);
    }
  }

  ghost function Restrict<K, V>(m: map<K, V>, keys: set<K>): map<K, V> {
    map k | k in m && k in keys :: m[k]
  }

  /** Part-way through the pass: the keys in `seen` have been ranged over, and
      `moved` lists those whose entry has been filed under its new key. */
  ghost predicate Midway<K, V>(m: map<K, V>, base: map<K, V>, made: map<K, V>, rename: K -> K, seen: set<K>, moved: seq<K>) {
    Overlay(m, base, Restrict(made, seen), rename) && (set k | k in moved) == made.Keys * seen
  }

  lemma MidwayStart<K, V>(base: map<K, V>, made: map<K, V>, rename: K -> K)
    ensures Midway(base, base, made, rename, {}, [])
  {
    assert Restrict(made, {}) == map[];
  }

  lemma MidwayStep<K, V>(m: map<K, V>, base: map<K, V>, made: map<K, V>, rename: K -> K, seen: set<K>, moved: seq<K>, key: K)
    requires Midway(m, base, made, rename, seen, moved) && key !in seen
    ensures if key in made then Midway(m[rename(key) := made[key]], base, made, rename, seen + {key}, moved + [key])
            else Midway(m, base, made, rename, seen + {key}, moved)
  {
    var part := Restrict(made, seen);
    if key in made {
      assert Restrict(made, seen + {key}) == part[key := made[key]];
      OverlayStep(m, base, part, rename, key, made[key]);
      assert (set k | k in moved + [key]) == (set k | k in moved) + {key} == made.Keys * (seen + {key});
    } else {
      assert Restrict(made, seen + {key}) == part;
    }
  }

  lemma MidwayEnd<K, V>(m: map<K, V>, base: map<K, V>, made: map<K, V>, rename: K -> K, seen: set<K>, moved: seq<K>)
    requires Midway(m, base, made, rename, seen, moved) && made.Keys <= seen && NewKeys(made, rename) !! made.Keys
    ensures (set k | k in moved) == made.Keys && Swapped(m - made.Keys, base, made, rename)
  {
    assert Restrict(made, seen) == made;
    OverlayToSwapped(m, base, made, rename);
  }

  /** Two moves in a row: the second takes exactly the moved entries, each back
      to an old key from which it can have come, with the values of `final`. */
  ghost predicate ThereAndBack<K, V>(before: map<K, V>, made: map<K, V>, rename: K -> K, between: map<K, V>,
                                           back: map<K, V>, restore: K -> K, final: map<K, V>, after: map<K, V>) {
    && made.Keys <= before.Keys && final.Keys == made.Keys && NewKeys(made, rename) !! made.Keys
    && Swapped(between, before, made, rename) && Swapped(after, between, back, restore)
    && back.Keys == NewKeys(made, rename)
    && forall k :: k in back ==> restore(k) in made && rename(restore(k)) == k && back[k] == final[restore(k)]
  }

  /** No moved entry overwrites another entry. */
  ghost predicate NoCollision<K, V>(before: map<K, V>, made: map<K, V>, rename: K -> K) {
    NewKeys(made, rename) !! before.Keys &&
    forall c, d :: c in made && d in made && rename(c) == rename(d) ==> c == d
  }

  lemma KeysThereAndBack<K, V>(before: map<K, V>, made: map<K, V>, rename: K -> K, between: map<K, V>,
                               back: map<K, V>, restore: K -> K, final: map<K, V>, after: map<K, V>)
    requires ThereAndBack(before, made, rename, between, back, restore, final, after)
    ensures after.Keys == before.Keys - made.Keys - NewKeys(made, rename) + NewKeys(back, restore)
    ensures NewKeys(back, restore) <= made.Keys
    ensures after.Keys == before.Keys <==> NoCollision(before, made, rename)
  {
    if NoCollision(before, made, rename) {
      forall c | c in made ensures c in NewKeys(back, restore) {
        assert rename(c) in back;
        assert restore(rename(c)) == c;
      }
    }
    if after.Keys == before.Keys {
      forall c | c in made ensures restore(rename(c)) == c {
        assert c in NewKeys(back, restore);
        var k :| k in back && restore(k) == c;
      }
    }
  }

  lemma EntriesThereAndBack<K, V>(before: map<K, V>, made: map<K, V>, rename: K -> K, between: map<K, V>,
                                  back: map<K, V>, restore: K -> K, final: map<K, V>, after: map<K, V>, k: K)
    requires ThereAndBack(before, made, rename, between, back, restore, final, after) && k in after
    ensures k in made ==> after[k] == final[k]
    ensures k !in made ==> k in before && after[k] == before[k]
  {
    KeysThereAndBack(before, made, rename, between, back, restore, final, after);
    if k in NewKeys(back, restore) {
      assert Won(after, back, restore, k);
    } else {
      assert k in between && k !in NewKeys(made, rename);
    }
  }
}
