/** The specifications editor of the admin product form
    (src/components/admin/ProductManagement.tsx): a JavaScript object with string keys, kept as
    its entries in insertion order. Assigning to a new key appends an entry, assigning to an
    existing key replaces its value where it stands, `delete` removes the entry. */
module ProductSpecs {
  import opened Wrappers
  import opened Types
  import opened Seqs

  /** `Object.keys`. */
  function Keys(s: Specs): (ks: seq<string>)
    ensures |ks| == |s|
    ensures forall i :: 0 <= i < |s| ==> ks[i] == s[i].0
  {
    seq(|s|, i requires 0 <= i < |s| => s[i].0)
  }

  /** An object never holds a key twice. */
  predicate WellFormed(s: Specs)
  {
    NoDup(Keys(s))
  }

  lemma KeysCons(s: Specs)
    requires s != []
    ensures Keys(s) == [s[0].0] + Keys(s[1..])
  {
  }

  lemma NoDupCons(x: string, t: seq<string>)
    ensures NoDup([x] + t) <==> x !in t && NoDup(t)
  {
    var s := [x] + t;
    if x !in t && NoDup(t) {
      forall i, j | 0 <= i < j < |s| ensures s[i] != s[j] {
        if i > 0 {
          assert s[i] == t[i - 1] && s[j] == t[j - 1];
        } else {
          assert s[j] == t[j - 1];
        }
      }
    }
    if NoDup(s) {
      forall i, j | 0 <= i < j < |t| ensures t[i] != t[j] {
        assert t[i] == s[i + 1] && t[j] == s[j + 1];
      }
      forall j | 0 <= j < |t| ensures t[j] != x {
        assert t[j] == s[j + 1] && x == s[0];
        assert s[0] != s[j + 1];
      }
    }
  }

  /** Property access `specs[k]`: the value stored under `k`, if any. */
  function Lookup(s: Specs, k: string): (v: Option<string>)
    ensures v.None? <==> k !in Keys(s)
    ensures v.Some? ==> (k, v.value) in s
  {
    if s == [] then None
    else
      KeysCons(s);
      if s[0].0 == k then Some(s[0].1) else Lookup(s[1..], k)
  }

  /** `specs[k] = v`. */
  function Set(s: Specs, k: string, v: string): (r: Specs)
    ensures k in Keys(s) ==> Keys(r) == Keys(s)
    ensures k !in Keys(s) ==> Keys(r) == Keys(s) + [k]
  {
    if s == [] then [(k, v)]
    else
      KeysCons(s);
      if s[0].0 == k then
        var r := [(k, v)] + s[1..];
        KeysCons(r);
        assert r[1..] == s[1..];
        r
      else
        var rest := Set(s[1..], k, v);
        var r := [s[0]] + rest;
        KeysCons(r);
        assert r[1..] == rest;
        r
  }

  /** After `specs[k] = v`, `k` holds `v` and every other key what it held before. */
  lemma {:induction false} SetLookup(s: Specs, k: string, v: string, k': string)
    ensures Lookup(Set(s, k, v), k) == Some(v)
    ensures k' != k ==> Lookup(Set(s, k, v), k') == Lookup(s, k')
  {
    if s != [] && s[0].0 != k {
      SetLookup(s[1..], k, v, k');
      var r := Set(s, k, v);
      assert r[1..] == Set(s[1..], k, v);
    }
  }

  lemma SetLookupAll(s: Specs, k: string, v: string)
    ensures Lookup(Set(s, k, v), k) == Some(v)
    ensures forall k' :: k' != k ==> Lookup(Set(s, k, v), k') == Lookup(s, k')
  {
    SetLookup(s, k, v, k);
    forall k' | k' != k ensures Lookup(Set(s, k, v), k') == Lookup(s, k') {
      SetLookup(s, k, v, k');
    }
  }

  /** Assigning keeps the object well formed. */
  lemma SetWellFormed(s: Specs, k: string, v: string)
    requires WellFormed(s)
    ensures WellFormed(Set(s, k, v))
  {
    var ks := Keys(s);
    if k !in ks {
      assert Keys(Set(s, k, v)) == ks + [k];
      forall i, j | 0 <= i < j < |ks + [k]| ensures (ks + [k])[i] != (ks + [k])[j] {
        if j == |ks| {
          assert (ks + [k])[i] == ks[i];
        } else {
          assert (ks + [k])[i] == ks[i] && (ks + [k])[j] == ks[j];
        }
      }
    }
  }

  /** `delete specs[k]`. */
  function Delete(s: Specs, k: string): (r: Specs)
    ensures |r| <= |s|
  {
    if s == [] then []
    else if s[0].0 == k then Delete(s[1..], k)
    else [s[0]] + Delete(s[1..], k)
  }

  /** After `delete specs[k]`, `k` is gone and every other key holds what it held before. */
  lemma {:induction false} DeleteLookup(s: Specs, k: string, k': string)
    ensures Lookup(Delete(s, k), k) == None
    ensures k' != k ==> Lookup(Delete(s, k), k') == Lookup(s, k')
  {
    if s != [] {
      DeleteLookup(s[1..], k, k');
      if s[0].0 != k {
        var r := Delete(s, k);
        assert r[0] == s[0] && r[1..] == Delete(s[1..], k);
      }
    }
  }

  lemma DeleteLookupAll(s: Specs, k: string)
    ensures Lookup(Delete(s, k), k) == None
    ensures forall k' :: k' != k ==> Lookup(Delete(s, k), k') == Lookup(s, k')
  {
    DeleteLookup(s, k, k);
    forall k' | k' != k ensures Lookup(Delete(s, k), k') == Lookup(s, k') {
      DeleteLookup(s, k, k');
    }
  }

  /** Deleting a key that is not there changes nothing. */
  lemma {:induction false} DeleteAbsent(s: Specs, k: string)
    requires k !in Keys(s)
    ensures Delete(s, k) == s
  {
    if s != [] {
      KeysCons(s);
      DeleteAbsent(s[1..], k);
    }
  }

  /** Deleting keeps the object well formed. */
  lemma {:induction false} DeleteWellFormed(s: Specs, k: string)
    requires WellFormed(s)
    ensures WellFormed(Delete(s, k))
  {
    if s != [] {
      KeysCons(s);
      NoDupCons(s[0].0, Keys(s[1..]));
      DeleteWellFormed(s[1..], k);
      if s[0].0 != k {
        var rest := Delete(s[1..], k);
        var r := [s[0]] + rest;
        assert Delete(s, k) == r && r[1..] == rest;
        DeleteLookup(s[1..], k, s[0].0);
        assert Lookup(rest, s[0].0) == Lookup(s[1..], s[0].0) == None;
        KeysCons(r);
        NoDupCons(s[0].0, Keys(rest));
      }
    }
  }

  /** In a well-formed object, deleting a present key removes exactly one entry. */
  lemma {:induction false} DeleteCount(s: Specs, k: string)
    requires WellFormed(s) && k in Keys(s)
    ensures |Delete(s, k)| == |s| - 1
  {
    KeysCons(s);
    NoDupCons(s[0].0, Keys(s[1..]));
    if s[0].0 == k {
      DeleteAbsent(s[1..], k);
    } else {
      DeleteCount(s[1..], k);
    }
  }

  /** Assigning a key the value it already has changes nothing; in particular "Add" twice is
      "Add" once. */
  lemma {:induction false} SetSame(s: Specs, k: string, v: string)
    requires Lookup(s, k) == Some(v)
    ensures Set(s, k, v) == s
  {
    if s[0].0 != k {
      SetSame(s[1..], k, v);
    }
  }

  /** The key editor at row `i`: `newSpecs[newKey] = newSpecs[oldKey]; delete newSpecs[oldKey]`. */
  function RenameKey(s: Specs, i: nat, newKey: string): (r: Specs)
    requires i < |s|
    ensures Lookup(r, s[i].0) == None
    ensures newKey != s[i].0 ==> Lookup(r, newKey) == Lookup(s, s[i].0)
    ensures forall k :: k != newKey && k != s[i].0 ==> Lookup(r, k) == Lookup(s, k)
    ensures WellFormed(s) ==> WellFormed(r)
  {
    var oldKey := s[i].0;
    assert oldKey in Keys(s) by { assert Keys(s)[i] == oldKey; }
    var moved := Set(s, newKey, Lookup(s, oldKey).value);
    SetLookupAll(s, newKey, Lookup(s, oldKey).value);
    DeleteLookupAll(moved, oldKey);
    assert WellFormed(s) ==> WellFormed(Delete(moved, oldKey)) by {
      if WellFormed(s) {
        SetWellFormed(s, newKey, Lookup(s, oldKey).value);
        DeleteWellFormed(moved, oldKey);
      }
    }
    Delete(moved, oldKey)
  }

  /** Renaming to a key not yet present keeps the number of entries (RenameFreshMovesToEnd
      says where the entry goes); renaming onto another present key overwrites that entry and drops one; renaming a
      key to itself deletes it. */
  lemma RenameKeyCount(s: Specs, i: nat, newKey: string)
    requires i < |s| && WellFormed(s)
    ensures newKey == s[i].0 ==> |RenameKey(s, i, newKey)| == |s| - 1
    ensures newKey != s[i].0 && newKey !in Keys(s) ==> |RenameKey(s, i, newKey)| == |s|
    ensures newKey != s[i].0 && newKey in Keys(s) ==> |RenameKey(s, i, newKey)| == |s| - 1
  {
    var oldKey := s[i].0;
    assert Keys(s)[i] == oldKey;
    var v := Lookup(s, oldKey).value;
    var moved := Set(s, newKey, v);
    SetWellFormed(s, newKey, v);
    assert |Keys(moved)| == |moved|;
    SetLookupAll(s, newKey, v);
    assert oldKey in Keys(moved) by { assert Lookup(moved, oldKey).Some?; }
    DeleteCount(moved, oldKey);
  }

  /** In a well-formed object, a key reads the value of its own entry. */
  lemma LookupAt(s: Specs, i: nat)
    requires i < |s| && WellFormed(s)
    ensures Lookup(s, s[i].0) == Some(s[i].1)
  {
    var k := s[i].0;
    assert Keys(s)[i] == k;
    var v := Lookup(s, k).value;
    var j :| 0 <= j < |s| && s[j] == (k, v);
    assert Keys(s)[j] == k;
  }

  /** Assigning a key that is not there appends its entry. */
  lemma {:induction false} SetFresh(s: Specs, k: string, v: string)
    requires k !in Keys(s)
    ensures Set(s, k, v) == s + [(k, v)]
  {
    if s != [] {
      KeysCons(s);
      SetFresh(s[1..], k, v);
      assert s + [(k, v)] == [s[0]] + (s[1..] + [(k, v)]);
    }
  }

  /** In a well-formed object, deleting the key of row `i` removes exactly that row. */
  lemma {:induction false} DeleteAt(s: Specs, i: nat)
    requires i < |s| && WellFormed(s)
    ensures Delete(s, s[i].0) == s[..i] + s[i + 1..]
  {
    var k := s[i].0;
    KeysCons(s);
    NoDupCons(s[0].0, Keys(s[1..]));
    if i == 0 {
      DeleteAbsent(s[1..], k);
      assert s[..0] + s[1..] == s[1..];
    } else {
      assert Keys(s)[0] == s[0].0 && Keys(s)[i] == k;
      assert s[0].0 != k;
      DeleteAt(s[1..], i - 1);
      assert s[1..][i - 1].0 == k;
      assert s[1..][..i - 1] + s[1..][i..] == s[1..i] + s[i + 1..];
      assert s[..i] + s[i + 1..] == [s[0]] + (s[1..i] + s[i + 1..]);
    }
  }

  /** Renaming a row to a key not yet present moves the entry, with its value, to the end;
      the other rows keep their order. */
  lemma RenameFreshMovesToEnd(s: Specs, i: nat, newKey: string)
    requires i < |s| && WellFormed(s) && newKey !in Keys(s)
    ensures RenameKey(s, i, newKey) == s[..i] + s[i + 1..] + [(newKey, s[i].1)]
    ensures Keys(RenameKey(s, i, newKey)) == Keys(s)[..i] + Keys(s)[i + 1..] + [newKey]
  {
    LookupAt(s, i);
    SetFresh(s, newKey, s[i].1);
    SetWellFormed(s, newKey, s[i].1);
    DeleteAppended(s, i, (newKey, s[i].1));
    KeysWithout(s, i, (newKey, s[i].1));
  }

  /** Deleting the key of row `i` from a well-formed object that has an entry appended after
      `s` leaves the rest of `s` and that entry. */
  lemma DeleteAppended(s: Specs, i: nat, e: (string, string))
    requires i < |s| && WellFormed(s + [e])
    ensures Delete(s + [e], s[i].0) == s[..i] + s[i + 1..] + [e]
  {
    var t := s + [e];
    assert t[i] == s[i];
    DeleteAt(t, i);
    assert t[..i] == s[..i];
    DropAppend(s, i + 1, e);
    AppendAssoc(s[..i], s[i + 1..], [e]);
  }

  /** The keys of `s` with row `i` taken out and `e` appended. */
  lemma KeysWithout(s: Specs, i: nat, e: (string, string))
    requires i < |s|
    ensures Keys(s[..i] + s[i + 1..] + [e]) == Keys(s)[..i] + Keys(s)[i + 1..] + [e.0]
  {
    var r := s[..i] + s[i + 1..] + [e];
    var ks := Keys(s)[..i] + Keys(s)[i + 1..] + [e.0];
    assert |Keys(r)| == |ks|;
    forall j | 0 <= j < |ks| ensures Keys(r)[j] == ks[j] {
      if j < i {
        assert r[j] == s[j];
      } else if j < |s| - 1 {
        assert r[j] == s[j + 1];
      }
    }
  }

  /** The value editor at row `i`: the row's key gets the typed value, in place. */
  function SetValueAt(s: Specs, i: nat, v: string): (r: Specs)
    requires i < |s|
    ensures Keys(r) == Keys(s)
    ensures Lookup(r, s[i].0) == Some(v)
    ensures forall k :: k != s[i].0 ==> Lookup(r, k) == Lookup(s, k)
  {
    assert Keys(s)[i] == s[i].0;
    SetLookupAll(s, s[i].0, v);
    Set(s, s[i].0, v)
  }

  /** The remove button at row `i`: exactly that key disappears. */
  function RemoveAt(s: Specs, i: nat): (r: Specs)
    requires i < |s|
    ensures Lookup(r, s[i].0) == None
    ensures forall k :: k != s[i].0 ==> Lookup(r, k) == Lookup(s, k)
    ensures WellFormed(s) ==> |r| == |s| - 1
  {
    assert Keys(s)[i] == s[i].0;
    DeleteLookupAll(s, s[i].0);
    assert WellFormed(s) ==> |Delete(s, s[i].0)| == |s| - 1 by {
      if WellFormed(s) {
        DeleteCount(s, s[i].0);
      }
    }
    Delete(s, s[i].0)
  }

  /** The add button: `specs[""] = ""`. */
  function AddBlank(s: Specs): (r: Specs)
    ensures Lookup(r, "") == Some("")
    ensures forall k :: k != "" ==> Lookup(r, k) == Lookup(s, k)
  {
    SetLookupAll(s, "", "");
    Set(s, "", "")
  }

  /** Adding a second blank row adds nothing. */
  lemma AddBlankIdempotent(s: Specs)
    ensures AddBlank(AddBlank(s)) == AddBlank(s)
  {
    SetSame(AddBlank(s), "", "");
  }
}
