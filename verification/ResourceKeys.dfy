/** How resources are named in the maps of the sync code: the string form of a
    resource ID is the lower-cased kind, a slash and the name.
    Models pkg/util/resource/resource.go and pkg/kubernetes/resource/resource.go. */
module ResourceKeys {

  function LowerChar(c: char): char {
    if 'A' <= c <= 'Z' then c + 32 as char else c
  }

  function ToLower(s: string): string {
    seq(|s|, i requires 0 <= i < |s| => LowerChar(s[i]))
  }

  /** ResourceID().String() of an object of the given kind and name. */
  function Key(kind: string, name: string): string {
    ToLower(kind) + "/" + name
  }

  lemma LowerKeepsSlashes(s: string)
    ensures '/' in ToLower(s) <==> '/' in s
  {
    forall i | 0 <= i < |s| ensures ToLower(s)[i] == '/' <==> s[i] == '/' {}
    if '/' in s { var i :| 0 <= i < |s| && s[i] == '/'; assert ToLower(s)[i] == '/'; }
  }

  /** Lower-casing: letter by letter, and nothing else changes. */
  lemma LowerCases(s: string)
    ensures |ToLower(s)| == |s| && ToLower(ToLower(s)) == ToLower(s)
    ensures ToLower("ABCXYZ-azm/09") == "abcxyz-azm/09"
  {
    assert ToLower(ToLower(s)) == ToLower(s);
  }

  /** A key ignores the case of the kind, and only that. */
  lemma KeyIgnoresCase(kind: string, name: string, kind': string, name': string)
    requires '/' !in kind && '/' !in kind'
    ensures Key(kind, name) == Key(kind', name') <==> ToLower(kind) == ToLower(kind') && name == name'
  {
    if Key(kind, name) == Key(kind', name') { KeyIsInjective(kind, name, kind', name'); }
  }

  /** A key determines the lower-cased kind and the name. */
  lemma KeyIsInjective(kind: string, name: string, kind': string, name': string)
    requires '/' !in kind && '/' !in kind'
    requires Key(kind, name) == Key(kind', name')
    ensures ToLower(kind) == ToLower(kind') && name == name'
  {
    LowerKeepsSlashes(kind);
    LowerKeepsSlashes(kind');
    var k, a, b := Key(kind, name), |kind|, |kind'|;
    assert k[a] == '/' && k[b] == '/';
    assert forall i :: 0 <= i < a ==> k[i] == ToLower(kind)[i] != '/';
    assert forall i :: 0 <= i < b ==> k[i] == ToLower(kind')[i] != '/';
    assert a == b;
    assert k[..a] == ToLower(kind) == ToLower(kind');
    assert k[a + 1..] == name == name';
  }

  /** Position of the first slash, or the length when there is none. */
  function FirstSlash(s: string): (i: nat)
    ensures i <= |s| && (forall j :: 0 <= j < i ==> s[j] != '/') && (i < |s| ==> s[i] == '/')
  {
    if s == [] || s[0] == '/' then 0 else 1 + FirstSlash(s[1..])
  }

  /** parseKey: the second slash-separated part of a key. (On a key without a
      slash the source panics; every resource key has one.) */
  function ParseKey(key: string): string {
    var i := FirstSlash(key);
    if i == |key| then "" else var rest := key[i + 1..]; rest[..FirstSlash(rest)]
  }

  /** parseKey recovers the name from a key exactly when the name has no slash. */
  lemma ParseKeyOfKey(kind: string, name: string)
    requires '/' !in kind
    ensures ParseKey(Key(kind, name)) == name <==> '/' !in name
  {
    LowerKeepsSlashes(kind);
    var k := Key(kind, name);
    assert k[|kind|] == '/' && forall i :: 0 <= i < |kind| ==> k[i] == ToLower(kind)[i];
    assert FirstSlash(k) == |kind|;
    assert k[|kind| + 1..] == name;
  }
}
