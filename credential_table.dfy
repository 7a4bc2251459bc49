/**
 * The `publicKeyCredentialSources` property: a PHP array from storage key to
 * entry. PHP arrays are ordered maps, so the table is a sequence of slots in
 * insertion order; assigning to an existing key replaces its value in place,
 * assigning to a new key appends, `unset` removes the slot.
 */
module CredentialTable {
  import opened Wrappers
  import opened WebAuthn

  /** One stored credential: `{publickey, description, icon, created, updated}`, each possibly absent. */
  datatype Entry = Entry(
    publickey: Option<Source>,
    description: Option<string>,
    icon: Option<string>,
    created: Option<int>,
    updated: Option<int>)

  datatype Slot = Slot(key: string, entry: Entry)

  type Table = seq<Slot>

  predicate HasKey(t: Table, k: string) {
    exists i :: 0 <= i < |t| && t[i].key == k
  }

  function Keys(t: Table): (ks: seq<string>)
    ensures |ks| == |t| && forall i :: 0 <= i < |t| ==> ks[i] == t[i].key
  {
    seq(|t|, i requires 0 <= i < |t| => t[i].key)
  }

  predicate DistinctKeys(t: Table) {
    forall i, j :: 0 <= i < j < |t| ==> t[i].key != t[j].key
  }

  /** `$t[$k] ?? null`. */
  function Get(t: Table, k: string): (r: Option<Entry>)
    ensures r.None? <==> !HasKey(t, k)
    ensures r.Some? ==> Slot(k, r.value) in t
  {
    if |t| == 0 then None
    else if t[0].key == k then Some(t[0].entry)
    else
      var r := Get(t[1..], k);
      assert HasKey(t, k) <==> HasKey(t[1..], k) by {
        if HasKey(t, k) {
          var i :| 0 <= i < |t| && t[i].key == k;
          assert t[1..][i - 1].key == k;
        }
        if HasKey(t[1..], k) {
          var i :| 0 <= i < |t[1..]| && t[1..][i].key == k;
          assert t[i + 1].key == k;
        }
      }
      r
  }

  /** `$t[$k] = $e`. */
  function Put(t: Table, k: string, e: Entry): (r: Table)
    ensures |r| > 0
  {
    if |t| == 0 then [Slot(k, e)]
    else if t[0].key == k then [Slot(k, e)] + t[1..]
    else [t[0]] + Put(t[1..], k, e)
  }

  /** `unset($t[$k])`. */
  function Remove(t: Table, k: string): (r: Table)
    ensures |r| <= |t|
  {
    if |t| == 0 then []
    else if t[0].key == k then Remove(t[1..], k)
    else [t[0]] + Remove(t[1..], k)
  }

  lemma {:induction false} GetPut(t: Table, k: string, e: Entry, k': string)
    ensures Get(Put(t, k, e), k') == if k' == k then Some(e) else Get(t, k')
  {
    if |t| > 0 && t[0].key != k {
      var r := Put(t, k, e);
      assert r[1..] == Put(t[1..], k, e);
      GetPut(t[1..], k, e, k');
    }
  }

  lemma KeysCons(s: Slot, t: Table)
    ensures Keys([s] + t) == [s.key] + Keys(t)
  {
  }

  /** Past a first slot with another key, the key is present exactly when it is present in the rest. */
  lemma HasKeyTail(t: Table, k: string)
    requires |t| > 0 && t[0].key != k
    ensures HasKey(t, k) <==> HasKey(t[1..], k)
  {
    if HasKey(t, k) {
      var i :| 0 <= i < |t| && t[i].key == k;
      assert t[1..][i - 1].key == k;
    }
    if HasKey(t[1..], k) {
      var i :| 0 <= i < |t[1..]| && t[1..][i].key == k;
      assert t[i + 1].key == k;
    }
  }

  /** Assigning to a key already present keeps the order of the keys; a new key goes last. */
  lemma {:induction false} PutKeys(t: Table, k: string, e: Entry)
    ensures Keys(Put(t, k, e)) == if HasKey(t, k) then Keys(t) else Keys(t) + [k]
  {
    var r := Put(t, k, e);
    if |t| == 0 {
      assert r == [Slot(k, e)];
    } else if t[0].key == k {
      assert HasKey(t, k);
      assert forall i :: 0 <= i < |t| ==> r[i].key == t[i].key;
    } else {
      var tail := t[1..];
      HasKeyTail(t, k);
      PutKeys(tail, k, e);
      assert r == [t[0]] + Put(tail, k, e);
      assert t == [t[0]] + tail;
      KeysCons(t[0], tail);
      KeysCons(t[0], Put(tail, k, e));
    }
  }

  lemma {:induction false} PutDistinct(t: Table, k: string, e: Entry)
    requires DistinctKeys(t)
    ensures DistinctKeys(Put(t, k, e))
  {
    var r := Put(t, k, e);
    PutKeys(t, k, e);
    var ks := Keys(r);
    forall i, j | 0 <= i < j < |r| ensures r[i].key != r[j].key {
      assert ks[i] == r[i].key && ks[j] == r[j].key;
      if !HasKey(t, k) && j == |t| {
        assert ks[j] == k && ks[i] == t[i].key;
      } else {
        assert ks[i] == t[i].key && ks[j] == t[j].key;
      }
    }
  }

  lemma {:induction false} GetRemove(t: Table, k: string, k': string)
    ensures Get(Remove(t, k), k') == if k' == k then None else Get(t, k')
  {
    if |t| > 0 {
      GetRemove(t[1..], k, k');
      if t[0].key != k {
        var r := Remove(t, k);
        assert r[1..] == Remove(t[1..], k);
      }
    }
  }

  lemma {:induction false} RemoveDistinct(t: Table, k: string)
    requires DistinctKeys(t)
    ensures DistinctKeys(Remove(t, k))
    ensures forall j :: 0 <= j < |Remove(t, k)| ==> Remove(t, k)[j] in t
  {
    if |t| > 0 {
      RemoveDistinct(t[1..], k);
      var r := Remove(t, k);
      if t[0].key != k {
        assert r == [t[0]] + Remove(t[1..], k);
        forall j | 0 < j < |r| ensures r[j].key != t[0].key {
          assert r[j] in t[1..];
          var m :| 0 <= m < |t[1..]| && t[1..][m] == r[j];
          assert t[m + 1] == r[j];
        }
      }
    }
  }

  /** Removing a key that is present drops exactly one slot. */
  lemma {:induction false} RemoveLength(t: Table, k: string)
    requires DistinctKeys(t) && HasKey(t, k)
    ensures |Remove(t, k)| == |t| - 1
  {
    if t[0].key == k {
      RemoveAbsent(t[1..], k);
    } else {
      var i :| 0 <= i < |t| && t[i].key == k;
      assert t[1..][i - 1].key == k;
      RemoveLength(t[1..], k);
    }
  }

  lemma {:induction false} RemoveAbsent(t: Table, k: string)
    requires forall i :: 0 <= i < |t| ==> t[i].key != k
    ensures Remove(t, k) == t
  {
    if |t| > 0 {
      RemoveAbsent(t[1..], k);
    }
  }

  // ---------------------------------------------------------------------------
  // Filtering by user handle (findAllForUserEntity)
  // ---------------------------------------------------------------------------

  predicate AllHavePublicKey(t: Table) {
    forall i :: 0 <= i < |t| ==> t[i].entry.publickey.Some?
  }

  /** The stored sources whose user handle is `handle`, in table order. */
  function UserSources(t: Table, handle: string): seq<Source> {
    if |t| == 0 then []
    else
      var last := t[|t| - 1].entry.publickey;
      UserSources(t[..|t| - 1], handle)
        + (if last.Some? && last.value.userHandle == handle then [last.value] else [])
  }

  /** A source is listed exactly when some slot stores it and it belongs to the handle. */
  lemma {:induction false} UserSourcesExactly(t: Table, handle: string, s: Source)
    ensures s in UserSources(t, handle)
        <==> s.userHandle == handle && exists i :: 0 <= i < |t| && t[i].entry.publickey == Some(s)
  {
    if |t| > 0 {
      var p := t[..|t| - 1];
      UserSourcesExactly(p, handle, s);
      if exists i :: 0 <= i < |t| && t[i].entry.publickey == Some(s) {
        var i :| 0 <= i < |t| && t[i].entry.publickey == Some(s);
        if i < |t| - 1 {
          assert p[i].entry.publickey == Some(s);
        }
      }
      if exists i :: 0 <= i < |p| && p[i].entry.publickey == Some(s) {
        var i :| 0 <= i < |p| && p[i].entry.publickey == Some(s);
        assert t[i].entry.publickey == Some(s);
      }
    }
  }
}
