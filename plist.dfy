/**
 * Apple property lists as values: the `<plist>` document mobileconfig.php
 * prints. Strings hold their text exactly as printed, after escaping.
 */
module Plist {
  import opened Wrappers

  datatype Value =
    | PString(text: string)
    | PInteger(number: int)
    | PReal(literal: string)
    | PBool(flag: bool)
    | PArray(items: seq<Value>)
    | PDict(entries: seq<(string, Value)>)

  /** The value of the first entry called `key`, as a property list reader
      sees it. */
  function Lookup(entries: seq<(string, Value)>, key: string): Option<Value> {
    if entries == [] then None
    else if entries[0].0 == key then Some(entries[0].1)
    else Lookup(entries[1..], key)
  }

  /** A key is looked up in the first part before the second. */
  lemma {:induction false} LookupConcat(a: seq<(string, Value)>, b: seq<(string, Value)>, key: string)
    ensures Lookup(a + b, key) == if Lookup(a, key).Some? then Lookup(a, key) else Lookup(b, key)
  {
    if a == [] {
      assert a + b == b;
    } else {
      assert (a + b)[0] == a[0];
      assert (a + b)[1..] == a[1..] + b;
      LookupConcat(a[1..], b, key);
    }
  }

  /** No key in `entries` begins with `c`. */
  predicate NoKeyStartsWith(entries: seq<(string, Value)>, c: char) {
    forall k :: 0 <= k < |entries| ==> entries[k].0 == [] || entries[k].0[0] != c
  }

  lemma NoKeyConcat(a: seq<(string, Value)>, b: seq<(string, Value)>, c: char)
    requires NoKeyStartsWith(a, c) && NoKeyStartsWith(b, c)
    ensures NoKeyStartsWith(a + b, c)
  {
    assert forall k :: |a| <= k < |a + b| ==> (a + b)[k] == b[k - |a|];
  }

  /** Four parts none of whose keys begins with `c`. */
  lemma NoKeyConcat4(a: seq<(string, Value)>, b: seq<(string, Value)>, d: seq<(string, Value)>,
                     e: seq<(string, Value)>, c: char)
    requires NoKeyStartsWith(a, c) && NoKeyStartsWith(b, c) && NoKeyStartsWith(d, c) && NoKeyStartsWith(e, c)
    ensures NoKeyStartsWith(a + b + d + e, c)
  {
    NoKeyConcat(a, b, c);
    NoKeyConcat(a + b, d, c);
    NoKeyConcat(a + b + d, e, c);
  }

  lemma {:induction false} LookupMissing(entries: seq<(string, Value)>, key: string)
    requires forall j :: 0 <= j < |entries| ==> entries[j].0 != key
    ensures Lookup(entries, key) == None
  {
    if entries != [] {
      LookupMissing(entries[1..], key);
    }
  }

  /** A key whose first letter no entry begins with is not found. */
  lemma {:induction false} LookupByInitial(entries: seq<(string, Value)>, key: string)
    requires key != [] && NoKeyStartsWith(entries, key[0])
    ensures Lookup(entries, key) == None
  {
    if entries != [] {
      LookupByInitial(entries[1..], key);
    }
  }

  /** An entry of a group is found when no entry before the group shares
      its initial and none before it in the group has its key. */
  lemma LookupInGroup(before: seq<(string, Value)>, group: seq<(string, Value)>, after: seq<(string, Value)>, i: int)
    requires 0 <= i < |group| && group[i].0 != [] && NoKeyStartsWith(before, group[i].0[0])
    requires forall j :: 0 <= j < i ==> group[j].0 != group[i].0
    ensures Lookup(before + group + after, group[i].0) == Some(group[i].1)
  {
    var key := group[i].0;
    LookupByInitial(before, key);
    LookupAt(group, i, key);
    LookupConcat(before, group, key);
    LookupConcat(before + group, after, key);
  }

  /** The entry at `k` answers when no earlier entry has its key. */
  lemma {:induction false} LookupAt(entries: seq<(string, Value)>, k: int, key: string)
    requires 0 <= k < |entries| && entries[k].0 == key
    requires forall j :: 0 <= j < k ==> entries[j].0 != key
    ensures Lookup(entries, key) == Some(entries[k].1)
  {
    if k > 0 {
      LookupAt(entries[1..], k - 1, key);
    }
  }
}
