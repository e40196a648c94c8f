/** `flatten_dict` of teste.py: nested dicts and lists of a JSON-like value flattened into one
    dict whose keys join the path to each leaf with `sep`. The function fills a local dict by
    assignment (`items[k] = v`) and by `items.update(...)` with the result of a recursive
    call; `Put` and `PutAll` are those two updates, and `Flatten` is what the whole call
    returns, given by the sequence `DictWrites` of the leaf assignments it performs. */
module Flatten {
  import opened Wrappers
  import opened JsonValue
  import opened Text

  /** `f"{parent_key}{sep}{k}" if parent_key else k`. */
  function NewKey(parent: string, sep: string, k: string): string
  {
    if parent != "" then parent + sep + k else k
  }

  /** `f"{new_key}{sep}{idx}"`, the key of the item at `idx` of a list. */
  function ItemKey(key: string, sep: string, idx: nat): string
  {
    key + sep + NatToString(idx)
  }

  /** The first-occurrence index is the only index before which the key does not occur. */
  lemma KeyIndexUnique(d: Dict, k: string, i: nat)
    requires i <= |d| && (i < |d| ==> d[i].0 == k)
    requires forall j :: 0 <= j < i ==> d[j].0 != k
    ensures KeyIndex(d, k) == i
  {
  }

  /** Dicts with the same keys at the same positions find every key at the same place. */
  lemma KeyIndexSameKeys(a: Dict, b: Dict, k: string)
    requires |a| == |b| && forall j :: 0 <= j < |a| ==> a[j].0 == b[j].0
    ensures KeyIndex(a, k) == KeyIndex(b, k)
  {
    KeyIndexUnique(b, k, KeyIndex(a, k));
  }

  /** `items[k] = v` on a Python dict: a key already present keeps its place and takes the
      new value; a new key goes last. */
  function Put(items: Dict, k: string, v: Json): (r: Dict)
    ensures Get(r, k) == Some(v)
    ensures forall k' :: k' != k ==> Get(r, k') == Get(items, k')
    ensures |r| == if HasKey(items, k) then |items| else |items| + 1
    ensures forall j :: 0 <= j < |items| ==> r[j].0 == items[j].0
    ensures DistinctKeys(items) ==> DistinctKeys(r)
  {
    var i := KeyIndex(items, k);
    if i < |items| then
      var r := items[i := (k, v)];
      KeyIndexUnique(r, k, i);
      assert forall k' :: KeyIndex(r, k') == KeyIndex(items, k') by {
        forall k' ensures KeyIndex(r, k') == KeyIndex(items, k') {
          KeyIndexSameKeys(r, items, k');
        }
      }
      r
    else
      var r := items + [(k, v)];
      KeyIndexUnique(r, k, |items|);
      assert forall k' :: k' != k ==> Get(r, k') == Get(items, k') by {
        forall k' | k' != k ensures Get(r, k') == Get(items, k') {
          var m := KeyIndex(items, k');
          if m < |items| {
            KeyIndexUnique(r, k', m);
          } else {
            KeyIndexUnique(r, k', |r|);
          }
        }
      }
      r
  }

  /** `items.update(other)` with the items of `other` in order, and more generally a run of
      assignments `items[k] = v`, one per pair of `w`. */
  function PutAll(items: Dict, w: seq<(string, Json)>): Dict
    decreases |w|
  {
    if w == [] then items else PutAll(Put(items, w[0].0, w[0].1), w[1..])
  }

  /** The value of the last pair of `w` with key `k`. */
  function LastWrite(w: seq<(string, Json)>, k: string): Option<Json>
    decreases |w|
  {
    if w == [] then None
    else
      var rest := LastWrite(w[1..], k);
      if rest.Some? then rest
      else if w[0].0 == k then Some(w[0].1)
      else None
  }

  /** The last assignment to `k` is an assignment of `w`, and there is one whenever `w`
      assigns `k` at all. */
  lemma {:induction false} LastWriteFound(w: seq<(string, Json)>, k: string)
    ensures LastWrite(w, k).Some? ==> exists i :: 0 <= i < |w| && w[i] == (k, LastWrite(w, k).value)
    ensures LastWrite(w, k).None? ==> forall i :: 0 <= i < |w| ==> w[i].0 != k
    decreases |w|
  {
    if w != [] {
      LastWriteFound(w[1..], k);
      var rest := LastWrite(w[1..], k);
      if rest.Some? {
        var i :| 0 <= i < |w[1..]| && w[1..][i] == (k, rest.value);
        assert w[i + 1] == w[1..][i];
      } else {
        assert forall i :: 1 <= i < |w| ==> w[i] == w[1..][i - 1];
      }
    }
  }

  /** Two runs of assignments one after the other are one run. */
  lemma {:induction false} PutAllAppend(s: Dict, a: seq<(string, Json)>, b: seq<(string, Json)>)
    ensures PutAll(s, a + b) == PutAll(PutAll(s, a), b)
    decreases |a|
  {
    if a == [] {
      assert a + b == b;
    } else {
      assert (a + b)[0] == a[0] && (a + b)[1..] == a[1..] + b;
      PutAllAppend(Put(s, a[0].0, a[0].1), a[1..], b);
    }
  }

  /** A run of one assignment is that assignment. */
  lemma PutAllOne(s: Dict, k: string, v: Json)
    ensures PutAll(s, [(k, v)]) == Put(s, k, v)
  {
    assert [(k, v)][1..] == [];
  }

  /** Last write wins: after a run of assignments a key holds the value last assigned to
      it, and a key never assigned keeps its value. */
  lemma {:induction false} PutAllGet(s: Dict, w: seq<(string, Json)>, k: string)
    ensures Get(PutAll(s, w), k) == if LastWrite(w, k).Some? then LastWrite(w, k) else Get(s, k)
    decreases |w|
  {
    if w != [] {
      PutAllGet(Put(s, w[0].0, w[0].1), w[1..], k);
    }
  }

  /** Assignments keep the keys of a dict distinct, and keep every existing key in place. */
  lemma {:induction false} PutAllKeepsKeys(s: Dict, w: seq<(string, Json)>)
    ensures |PutAll(s, w)| >= |s|
    ensures forall j :: 0 <= j < |s| ==> PutAll(s, w)[j].0 == s[j].0
    ensures DistinctKeys(s) ==> DistinctKeys(PutAll(s, w))
    decreases |w|
  {
    if w != [] {
      PutAllKeepsKeys(Put(s, w[0].0, w[0].1), w[1..]);
    }
  }

  /** Assigning a key twice is assigning it once, the second time. */
  lemma PutTwice(s: Dict, k: string, a: Json, v: Json)
    ensures Put(Put(s, k, a), k, v) == Put(s, k, v)
  {
    var i := KeyIndex(s, k);
    if i == |s| {
      KeyIndexUnique(s + [(k, a)], k, |s|);
      assert (s + [(k, a)])[|s| := (k, v)] == s + [(k, v)];
    } else {
      KeyIndexUnique(s[i := (k, a)], k, i);
    }
  }

  /** Assigning another key commutes with replacing the value at a known position. */
  lemma ReplaceUnderPut(x: Dict, p: nat, k: string, v: Json, k': string, v': Json)
    requires p < |x| && x[p].0 == k && k' != k
    ensures Put(x[p := (k, v)], k', v') == Put(x, k', v')[p := (k, v)]
  {
    KeyIndexSameKeys(x[p := (k, v)], x, k');
  }

  /** A run of assignments to other keys commutes with replacing the value at a known
      position. */
  lemma {:induction false} ReplaceUnderPutAll(x: Dict, p: nat, k: string, v: Json, d: seq<(string, Json)>)
    requires p < |x| && x[p].0 == k
    requires forall j :: 0 <= j < |d| ==> d[j].0 != k
    ensures p < |PutAll(x, d)| && PutAll(x, d)[p].0 == k
    ensures PutAll(x[p := (k, v)], d) == PutAll(x, d)[p := (k, v)]
    decreases |d|
  {
    PutAllKeepsKeys(x, d);
    if d != [] {
      ReplaceUnderPut(x, p, k, v, d[0].0, d[0].1);
      var y := Put(x, d[0].0, d[0].1);
      assert y[p].0 == k;
      ReplaceUnderPutAll(y, p, k, v, d[1..]);
    }
  }

  /** Changing the value of one pair of a run of assignments with distinct keys is the
      same as assigning that value after the run. */
  lemma {:induction false} ReplaceInWrites(s: Dict, d: seq<(string, Json)>, i: nat, v: Json)
    requires i < |d| && DistinctKeys(d)
    ensures PutAll(s, d[i := (d[i].0, v)]) == Put(PutAll(s, d), d[i].0, v)
    decreases |d|
  {
    if i == 0 {
      ReplaceHeadWrite(s, d, v);
    } else {
      DistinctTail(d);
      ReplaceInWrites(Put(s, d[0].0, d[0].1), d[1..], i - 1, v);
      ReplaceLaterWrite(s, d, i, v);
    }
  }

  /** The first case of `ReplaceInWrites`: the changed pair comes first. */
  lemma ReplaceHeadWrite(s: Dict, d: seq<(string, Json)>, v: Json)
    requires d != [] && DistinctKeys(d)
    ensures PutAll(s, d[0 := (d[0].0, v)]) == Put(PutAll(s, d), d[0].0, v)
  {
    var k, rest := d[0].0, d[1..];
    DistinctHead(d);
    ReplaceFirstWrite(s, k, d[0].1, v, rest);
    assert d[0 := (k, v)] == [(k, v)] + rest;
    assert d == [(k, d[0].1)] + rest;
  }

  /** The second case of `ReplaceInWrites`: the changed pair comes later, and the first
      assignment is done before either run. */
  lemma ReplaceLaterWrite(s: Dict, d: seq<(string, Json)>, i: nat, v: Json)
    requires 0 < i < |d|
    requires PutAll(Put(s, d[0].0, d[0].1), d[1..][i - 1 := (d[i].0, v)]) ==
             Put(PutAll(Put(s, d[0].0, d[0].1), d[1..]), d[i].0, v)
    ensures PutAll(s, d[i := (d[i].0, v)]) == Put(PutAll(s, d), d[i].0, v)
  {
    ReplaceLater(d, i, v);
  }

  lemma DistinctHead(d: seq<(string, Json)>)
    requires DistinctKeys(d) && d != []
    ensures forall j :: 0 <= j < |d[1..]| ==> d[1..][j].0 != d[0].0
  {
    assert forall j :: 0 <= j < |d[1..]| ==> d[1..][j] == d[j + 1];
  }

  lemma DistinctTail(d: seq<(string, Json)>)
    requires DistinctKeys(d) && d != []
    ensures DistinctKeys(d[1..])
  {
    assert forall j :: 0 <= j < |d[1..]| ==> d[1..][j] == d[j + 1];
  }

  lemma ReplaceLater(d: seq<(string, Json)>, i: nat, v: Json)
    requires 0 < i < |d|
    ensures d[1..][i - 1] == d[i]
    ensures d[i := (d[i].0, v)][0] == d[0]
    ensures d[i := (d[i].0, v)][1..] == d[1..][i - 1 := (d[i].0, v)]
  {
  }

  /** The first case of `ReplaceInWrites`: the changed pair comes first. */
  lemma ReplaceFirstWrite(s: Dict, k: string, a: Json, v: Json, rest: seq<(string, Json)>)
    requires forall j :: 0 <= j < |rest| ==> rest[j].0 != k
    ensures PutAll(s, [(k, v)] + rest) == Put(PutAll(s, [(k, a)] + rest), k, v)
  {
    var x := Put(s, k, a);
    var p := KeyIndex(x, k);
    PutTwice(s, k, a, v);
    assert Put(s, k, v) == x[p := (k, v)];
    ReplaceUnderPutAll(x, p, k, v, rest);
    PutAllKeepsKeys(x, rest);
    KeyIndexUnique(PutAll(x, rest), k, p);
    assert ([(k, v)] + rest)[0] == (k, v) && ([(k, v)] + rest)[1..] == rest;
    assert ([(k, a)] + rest)[0] == (k, a) && ([(k, a)] + rest)[1..] == rest;
  }

  /** `items.update(flatten_dict(...))` assigns what the recursive call assigned: updating
      with the dict a run of assignments builds from nothing is performing the run. */
  lemma {:induction false} UpdateWithBuiltDict(s: Dict, w: seq<(string, Json)>)
    ensures PutAll(s, PutAll([], w)) == PutAll(s, w)
    decreases |w|
  {
    if w != [] {
      var w', x := w[..|w| - 1], w[|w| - 1];
      assert w == w' + [x];
      UpdateWithBuiltDict(s, w');
      var d := PutAll([], w');
      PutAllAppend([], w', [x]);
      PutAllAppend(s, w', [x]);
      PutAllKeepsKeys([], w');
      var i := KeyIndex(d, x.0);
      if i < |d| {
        assert Put(d, x.0, x.1) == d[i := (d[i].0, x.1)];
        ReplaceInWrites(s, d, i, x.1);
      } else {
        assert Put(d, x.0, x.1) == d + [x];
        PutAllAppend(s, d, [x]);
      }
    }
  }

  /** The leaf assignments `flatten_dict(d, parent, sep)` performs for the items of `d` from
      position `i` on, in order. */
  function DictWrites(d: Dict, i: nat, parent: string, sep: string): seq<(string, Json)>
    requires i <= |d|
    decreases JObj(d), 0, |d| - i
  {
    if i == |d| then []
    else EntryWrites(NewKey(parent, sep, d[i].0), d[i].1, sep) + DictWrites(d, i + 1, parent, sep)
  }

  /** The leaf assignments for one item of a dict, with its key already joined to the
      prefix: a dict value is flattened under the key, a list value contributes its items,
      and any other value is assigned at the key. */
  function EntryWrites(key: string, v: Json, sep: string): seq<(string, Json)>
    decreases v, 1, 0
  {
    match v
    case JObj(fields) => DictWrites(fields, 0, key, sep)
    case JArr(items) => ItemWrites(items, 0, key, sep)
    case _ => [(key, v)]
  }

  /** The leaf assignments for the items of a list at `key`, from position `j` on: a dict
      item is flattened under its indexed key, any other item (a list included) is
      assigned there as it is. */
  function ItemWrites(items: seq<Json>, j: nat, key: string, sep: string): seq<(string, Json)>
    requires j <= |items|
    decreases JArr(items), 0, |items| - j
  {
    if j == |items| then []
    else ItemEntryWrites(ItemKey(key, sep, j), items[j], sep) + ItemWrites(items, j + 1, key, sep)
  }

  /** The leaf assignments for one list item at its indexed key. */
  function ItemEntryWrites(key: string, item: Json, sep: string): seq<(string, Json)>
    decreases item, 1, 0
  {
    if item.JObj? then DictWrites(item.fields, 0, key, sep) else [(key, item)]
  }

  /** What `flatten_dict(d, parent, sep)` returns. */
  function Flatten(d: Dict, parent: string, sep: string): Dict
  {
    PutAll([], DictWrites(d, 0, parent, sep))
  }

  /** `flatten_dict(d, parent_key, sep)`. */
  method FlattenDict(d: Dict, parentKey: string, sep: string) returns (items: Dict)
    ensures items == Flatten(d, parentKey, sep)
    decreases JObj(d), 0
  {
    items := [];
    for i := 0 to |d|
      invariant PutAll(items, DictWrites(d, i, parentKey, sep)) == Flatten(d, parentKey, sep)
    {
      var (k, v) := d[i];
      var newKey := NewKey(parentKey, sep, k);
      DictStep(items, d, i, parentKey, sep);
      EntryEffect(items, newKey, v, sep);
      if v.JObj? {
        var sub := FlattenDict(v.fields, newKey, sep);
        items := PutAll(items, sub);
      } else if v.JArr? {
        items := FlattenList(items, v.items, newKey, sep);
      } else {
        items := Put(items, newKey, v);
      }
    }
  }

  /** The `for idx, item in enumerate(v)` loop of `flatten_dict` for a list `v` at `newKey`:
      a dict item is flattened under `newKey + sep + idx` and merged with `update`, any other
      item is stored there as it is. */
  method FlattenList(start: Dict, list: seq<Json>, newKey: string, sep: string) returns (items: Dict)
    ensures items == PutAll(start, ItemWrites(list, 0, newKey, sep))
    decreases JArr(list), 1
  {
    items := start;
    for idx := 0 to |list|
      invariant PutAll(items, ItemWrites(list, idx, newKey, sep)) == PutAll(start, ItemWrites(list, 0, newKey, sep))
    {
      var item := list[idx];
      var itemKey := ItemKey(newKey, sep, idx);
      ListStep(items, list, idx, newKey, sep);
      ItemEffect(items, itemKey, item, sep);
      if item.JObj? {
        var sub := FlattenDict(item.fields, itemKey, sep);
        items := PutAll(items, sub);
      } else {
        items := Put(items, itemKey, item);
      }
    }
  }

  /** What the assignments of one dict item do to `items`, by the kind of its value. */
  lemma EntryEffect(items: Dict, key: string, v: Json, sep: string)
    ensures v.JObj? ==> PutAll(items, EntryWrites(key, v, sep)) == PutAll(items, Flatten(v.fields, key, sep))
    ensures v.JArr? ==> PutAll(items, EntryWrites(key, v, sep)) == PutAll(items, ItemWrites(v.items, 0, key, sep))
    ensures !v.JObj? && !v.JArr? ==> PutAll(items, EntryWrites(key, v, sep)) == Put(items, key, v)
  {
    if v.JObj? {
      UpdateWithBuiltDict(items, DictWrites(v.fields, 0, key, sep));
    } else if !v.JArr? {
      PutAllOne(items, key, v);
    }
  }

  /** What the assignments of one list item do to `items`. */
  lemma ItemEffect(items: Dict, key: string, item: Json, sep: string)
    ensures item.JObj? ==> PutAll(items, ItemEntryWrites(key, item, sep)) == PutAll(items, Flatten(item.fields, key, sep))
    ensures !item.JObj? ==> PutAll(items, ItemEntryWrites(key, item, sep)) == Put(items, key, item)
  {
    if item.JObj? {
      UpdateWithBuiltDict(items, DictWrites(item.fields, 0, key, sep));
    } else {
      PutAllOne(items, key, item);
    }
  }

  /** One item of a dict: its assignments, then those of the items after it. */
  lemma DictStep(items: Dict, d: Dict, i: nat, parent: string, sep: string)
    requires i < |d|
    ensures PutAll(items, DictWrites(d, i, parent, sep)) ==
              PutAll(PutAll(items, EntryWrites(NewKey(parent, sep, d[i].0), d[i].1, sep)), DictWrites(d, i + 1, parent, sep))
  {
    PutAllAppend(items, EntryWrites(NewKey(parent, sep, d[i].0), d[i].1, sep), DictWrites(d, i + 1, parent, sep));
  }

  /** One item of a list: its assignments, then those of the items after it. */
  lemma ListStep(items: Dict, list: seq<Json>, j: nat, key: string, sep: string)
    requires j < |list|
    ensures PutAll(items, ItemWrites(list, j, key, sep)) ==
              PutAll(PutAll(items, ItemEntryWrites(ItemKey(key, sep, j), list[j], sep)), ItemWrites(list, j + 1, key, sep))
  {
    PutAllAppend(items, ItemEntryWrites(ItemKey(key, sep, j), list[j], sep), ItemWrites(list, j + 1, key, sep));
  }

  /** Every pair of a dict after an assignment was there before or is the assignment. */
  lemma PutPairs(items: Dict, k: string, v: Json)
    ensures forall x :: x in Put(items, k, v) ==> x in items || x == (k, v)
  {
    var i := KeyIndex(items, k);
    if i < |items| {
      forall x | x in items[i := (k, v)] ensures x in items || x == (k, v) {
        var j :| 0 <= j < |items| && items[i := (k, v)][j] == x;
        if j != i {
          assert x == items[j];
        }
      }
    }
  }

  /** Every pair of a dict after a run of assignments was there before or is one of them. */
  lemma {:induction false} PutAllPairs(s: Dict, w: seq<(string, Json)>)
    ensures forall x :: x in PutAll(s, w) ==> x in s || x in w
    decreases |w|
  {
    if w != [] {
      PutPairs(s, w[0].0, w[0].1);
      PutAllPairs(Put(s, w[0].0, w[0].1), w[1..]);
      assert forall x :: x in w[1..] ==> x in w;
    }
  }

  /** No leaf assignment assigns a dict. */
  lemma {:induction false} DictWritesAreLeaves(d: Dict, i: nat, parent: string, sep: string)
    requires i <= |d|
    ensures forall x :: x in DictWrites(d, i, parent, sep) ==> !x.1.JObj?
    decreases JObj(d), 0, |d| - i
  {
    if i < |d| {
      EntryWritesAreLeaves(NewKey(parent, sep, d[i].0), d[i].1, sep);
      DictWritesAreLeaves(d, i + 1, parent, sep);
    }
  }

  lemma {:induction false} EntryWritesAreLeaves(key: string, v: Json, sep: string)
    ensures forall x :: x in EntryWrites(key, v, sep) ==> !x.1.JObj?
    decreases v, 1, 0
  {
    match v
    case JObj(fields) => DictWritesAreLeaves(fields, 0, key, sep);
    case JArr(items) => ItemWritesAreLeaves(items, 0, key, sep);
    case _ =>
  }

  lemma {:induction false} ItemWritesAreLeaves(items: seq<Json>, j: nat, key: string, sep: string)
    requires j <= |items|
    ensures forall x :: x in ItemWrites(items, j, key, sep) ==> !x.1.JObj?
    decreases JArr(items), 0, |items| - j
  {
    if j < |items| {
      ItemEntryWritesAreLeaves(ItemKey(key, sep, j), items[j], sep);
      ItemWritesAreLeaves(items, j + 1, key, sep);
    }
  }

  lemma {:induction false} ItemEntryWritesAreLeaves(key: string, item: Json, sep: string)
    ensures forall x :: x in ItemEntryWrites(key, item, sep) ==> !x.1.JObj?
    decreases item, 1, 0
  {
    if item.JObj? {
      DictWritesAreLeaves(item.fields, 0, key, sep);
    }
  }

  /** The flattened dict is a dict: its keys are distinct; each key holds the value last
      assigned to it; a key is present exactly when some leaf is assigned to it; and every
      item is a leaf assignment, so no value is a dict. */
  lemma FlattenShape(d: Dict, parent: string, sep: string)
    ensures DistinctKeys(Flatten(d, parent, sep))
    ensures forall k :: Get(Flatten(d, parent, sep), k) == LastWrite(DictWrites(d, 0, parent, sep), k)
    ensures forall k :: HasKey(Flatten(d, parent, sep), k) <==>
              exists i :: 0 <= i < |DictWrites(d, 0, parent, sep)| && DictWrites(d, 0, parent, sep)[i].0 == k
    ensures forall x :: x in Flatten(d, parent, sep) ==> x in DictWrites(d, 0, parent, sep) && !x.1.JObj?
  {
    var w := DictWrites(d, 0, parent, sep);
    PutAllKeepsKeys([], w);
    forall k ensures Get(Flatten(d, parent, sep), k) == LastWrite(w, k) {
      PutAllGet([], w, k);
    }
    forall k ensures HasKey(Flatten(d, parent, sep), k) <==> exists i :: 0 <= i < |w| && w[i].0 == k {
      PutAllGet([], w, k);
      LastWriteFound(w, k);
      assert HasKey(Flatten(d, parent, sep), k) <==> Get(Flatten(d, parent, sep), k).Some?;
      assert Get([], k).None?;
      if LastWrite(w, k).Some? {
        var i :| 0 <= i < |w| && w[i] == (k, LastWrite(w, k).value);
        assert w[i].0 == k;
        assert HasKey(Flatten(d, parent, sep), k);
      } else {
        assert !HasKey(Flatten(d, parent, sep), k);
        assert forall i :: 0 <= i < |w| ==> w[i].0 != k;
      }
    }
    PutAllPairs([], w);
    DictWritesAreLeaves(d, 0, parent, sep);
  }

  /** Adding an item at the end of a dict adds its leaf assignments at the end. */
  lemma {:induction false} DictWritesAppend(d: Dict, e: (string, Json), i: nat, parent: string, sep: string)
    requires i <= |d|
    ensures DictWrites(d + [e], i, parent, sep) == DictWrites(d, i, parent, sep) + EntryWrites(NewKey(parent, sep, e.0), e.1, sep)
    decreases |d| - i
  {
    if i == |d| {
      assert (d + [e])[i] == e;
    } else {
      assert (d + [e])[i] == d[i];
      DictWritesAppend(d, e, i + 1, parent, sep);
    }
  }

  /** Adding an item at the end of a list adds its leaf assignments at the end. */
  lemma {:induction false} ItemWritesAppend(items: seq<Json>, x: Json, j: nat, key: string, sep: string)
    requires j <= |items|
    ensures ItemWrites(items + [x], j, key, sep) == ItemWrites(items, j, key, sep) + ItemEntryWrites(ItemKey(key, sep, |items|), x, sep)
    decreases |items| - j
  {
    if j == |items| {
      assert (items + [x])[j] == x;
    } else {
      assert (items + [x])[j] == items[j];
      ItemWritesAppend(items, x, j + 1, key, sep);
    }
  }

  /** A value that is neither a dict nor a list is stored at its joined key, after what
      the earlier items stored. */
  lemma FlattenScalarItem(d: Dict, parent: string, sep: string, k: string, v: Json)
    requires !v.JObj? && !v.JArr?
    ensures Flatten(d + [(k, v)], parent, sep) == Put(Flatten(d, parent, sep), NewKey(parent, sep, k), v)
    ensures Get(Flatten(d + [(k, v)], parent, sep), NewKey(parent, sep, k)) == Some(v)
  {
    DictWritesAppend(d, (k, v), 0, parent, sep);
    PutAllAppend([], DictWrites(d, 0, parent, sep), [(NewKey(parent, sep, k), v)]);
    PutAllOne(Flatten(d, parent, sep), NewKey(parent, sep, k), v);
  }

  /** A nested dict is flattened under its joined key and merged with `update`. */
  lemma FlattenDictItem(d: Dict, parent: string, sep: string, k: string, fields: Dict)
    ensures Flatten(d + [(k, JObj(fields))], parent, sep) ==
              PutAll(Flatten(d, parent, sep), Flatten(fields, NewKey(parent, sep, k), sep))
  {
    var key := NewKey(parent, sep, k);
    DictWritesAppend(d, (k, JObj(fields)), 0, parent, sep);
    PutAllAppend([], DictWrites(d, 0, parent, sep), DictWrites(fields, 0, key, sep));
    UpdateWithBuiltDict(Flatten(d, parent, sep), DictWrites(fields, 0, key, sep));
  }

  /** A list is stored item by item at `key + sep + idx`: a dict item flattened under that
      key, any other item as it is. */
  lemma FlattenListItem(d: Dict, parent: string, sep: string, k: string, items: seq<Json>)
    ensures Flatten(d + [(k, JArr(items))], parent, sep) ==
              PutAll(Flatten(d, parent, sep), ItemWrites(items, 0, NewKey(parent, sep, k), sep))
  {
    DictWritesAppend(d, (k, JArr(items)), 0, parent, sep);
    PutAllAppend([], DictWrites(d, 0, parent, sep), ItemWrites(items, 0, NewKey(parent, sep, k), sep));
  }

  /** The item of a list at index `idx`, when it is not a dict, is stored as it is at the
      indexed key, after the items before it. */
  lemma ListScalarItem(items: seq<Json>, x: Json, key: string, sep: string)
    requires !x.JObj?
    ensures ItemWrites(items + [x], 0, key, sep) == ItemWrites(items, 0, key, sep) + [(ItemKey(key, sep, |items|), x)]
  {
    ItemWritesAppend(items, x, 0, key, sep);
  }

  /** A list item that is a dict is flattened under the indexed key. */
  lemma ListDictItem(items: seq<Json>, fields: Dict, key: string, sep: string)
    ensures ItemWrites(items + [JObj(fields)], 0, key, sep) ==
              ItemWrites(items, 0, key, sep) + DictWrites(fields, 0, ItemKey(key, sep, |items|), sep)
  {
    ItemWritesAppend(items, JObj(fields), 0, key, sep);
  }

  /** An empty dict or list contributes no keys, nor does an empty input. */
  lemma EmptyContributesNothing(d: Dict, parent: string, sep: string, k: string)
    ensures Flatten([], parent, sep) == []
    ensures Flatten(d + [(k, JObj([]))], parent, sep) == Flatten(d, parent, sep)
    ensures Flatten(d + [(k, JArr([]))], parent, sep) == Flatten(d, parent, sep)
  {
    FlattenDictItem(d, parent, sep, k, []);
    FlattenListItem(d, parent, sep, k, []);
  }

  /** The first choice of the sample response at the end of teste.py. */
  const SampleChoice: Dict := [
    ("index", JInt(0)),
    ("message", JObj([("role", JStr("assistant")), ("content", JStr("Brasília."))])),
    ("logprobs", JNull),
    ("finish_reason", JStr("stop"))]

  /** The `usage` member of the sample. */
  const SampleUsage: Dict := [
    ("prompt_tokens", JInt(24)),
    ("completion_tokens", JInt(4)),
    ("total_tokens", JInt(28)),
    ("prompt_tokens_details", JObj([("cached_tokens", JInt(0))])),
    ("prompt_cache_hit_tokens", JInt(0)),
    ("prompt_cache_miss_tokens", JInt(24))]

  /** The sample response `data` flattened at the end of teste.py. */
  const SampleData: Dict := [
    ("id", JStr("8ecb4098-d4d8-4e6f-8e15-40fc49fa4409")),
    ("object", JStr("chat.completion")),
    ("created", JInt(1748990439)),
    ("model", JStr("deepseek-chat")),
    ("choices", JArr([JObj(SampleChoice)])),
    ("usage", JObj(SampleUsage)),
    ("system_fingerprint", JStr("fp_8802369eaa_prod0425fp8")),
    ("prompt", JStr("Explique IA em uma frase."))]

  /** Every key assigned under a list item or dict item starts with the key of that item,
      and every key assigned for a dict under a non-empty prefix starts with the prefix and
      `sep`. */
  lemma {:induction false} DictWritesUnderPrefix(d: Dict, i: nat, parent: string, sep: string)
    requires i <= |d|
    ensures parent != "" ==> forall x :: x in DictWrites(d, i, parent, sep) ==> parent + sep <= x.0
    decreases JObj(d), 0, |d| - i
  {
    if i < |d| {
      var key := NewKey(parent, sep, d[i].0);
      EntryWritesUnderKey(key, d[i].1, sep);
      DictWritesUnderPrefix(d, i + 1, parent, sep);
      if parent != "" {
        forall x | x in EntryWrites(key, d[i].1, sep) ensures parent + sep <= x.0 {
          PrefixTransitive(parent + sep, key, x.0);
        }
      }
    }
  }

  lemma {:induction false} EntryWritesUnderKey(key: string, v: Json, sep: string)
    ensures forall x :: x in EntryWrites(key, v, sep) ==> key <= x.0
    decreases v, 1, 0
  {
    match v
    case JObj(fields) =>
      DictWritesUnderPrefix(fields, 0, key, sep);
      if key == "" {
        assert forall x :: x in EntryWrites(key, v, sep) ==> key <= x.0;
      } else {
        forall x | x in EntryWrites(key, v, sep) ensures key <= x.0 {
          PrefixTransitive(key, key + sep, x.0);
        }
      }
    case JArr(items) =>
      ItemWritesUnderKey(items, 0, key, sep);
      forall x | x in EntryWrites(key, v, sep) ensures key <= x.0 {
        PrefixTransitive(key, key + sep, x.0);
      }
    case _ =>
  }

  lemma {:induction false} ItemWritesUnderKey(items: seq<Json>, j: nat, key: string, sep: string)
    requires j <= |items|
    ensures forall x :: x in ItemWrites(items, j, key, sep) ==> key + sep <= x.0
    decreases JArr(items), 0, |items| - j
  {
    if j < |items| {
      var itemKey := ItemKey(key, sep, j);
      ItemEntryWritesUnderKey(itemKey, items[j], sep);
      ItemWritesUnderKey(items, j + 1, key, sep);
      forall x | x in ItemEntryWrites(itemKey, items[j], sep) ensures key + sep <= x.0 {
        PrefixTransitive(key + sep, itemKey, x.0);
      }
    }
  }

  lemma {:induction false} ItemEntryWritesUnderKey(key: string, item: Json, sep: string)
    ensures forall x :: x in ItemEntryWrites(key, item, sep) ==> key <= x.0
    decreases item, 2, 0
  {
    if item.JObj? {
      EntryWritesUnderKey(key, item, sep);
    }
  }

  lemma PrefixTransitive(a: string, b: string, c: string)
    requires a <= b && b <= c
    ensures a <= c
  {
    assert c[..|a|] == b[..|a|];
  }

  /** The last assignment to a key in two runs is in the second when it has one. */
  lemma {:induction false} LastWriteAppend(a: seq<(string, Json)>, b: seq<(string, Json)>, k: string)
    ensures LastWrite(a + b, k) == if LastWrite(b, k).Some? then LastWrite(b, k) else LastWrite(a, k)
    decreases |a|
  {
    if a == [] {
      assert a + b == b;
    } else {
      assert (a + b)[0] == a[0] && (a + b)[1..] == a[1..] + b;
      LastWriteAppend(a[1..], b, k);
    }
  }

  /** Reading the leaf assignments of a dict from the end: the item at `i` matters for `k`
      only when no later item assigns `k`. */
  lemma LastWriteStep(d: Dict, i: nat, parent: string, sep: string, k: string)
    requires i < |d|
    ensures var later := LastWrite(DictWrites(d, i + 1, parent, sep), k);
            LastWrite(DictWrites(d, i, parent, sep), k) ==
              if later.Some? then later else LastWrite(EntryWrites(NewKey(parent, sep, d[i].0), d[i].1, sep), k)
  {
    LastWriteAppend(EntryWrites(NewKey(parent, sep, d[i].0), d[i].1, sep), DictWrites(d, i + 1, parent, sep), k);
  }

  /** A scalar item assigns only its own key. */
  lemma ScalarLastWrite(key: string, v: Json, sep: string, k: string)
    requires !v.JObj? && !v.JArr?
    ensures LastWrite(EntryWrites(key, v, sep), k) == if key == k then Some(v) else None
  {
  }

  /** The last of `xs[i..]` that is not None, if any. */
  function LastSome(xs: seq<Option<Json>>, i: nat): Option<Json>
    requires i <= |xs|
    decreases |xs| - i
  {
    if i == |xs| then None
    else
      var later := LastSome(xs, i + 1);
      if later.Some? then later else xs[i]
  }

  /** Once some element from `i` on is present, the elements before `i` no longer matter. */
  lemma {:induction false} LaterWins(xs: seq<Option<Json>>, i: nat, j: nat)
    requires j <= i <= |xs|
    requires LastSome(xs, i).Some?
    ensures LastSome(xs, j) == LastSome(xs, i)
    decreases i - j
  {
    if j < i {
      LaterWins(xs, i, j + 1);
    }
  }

  /** When no element from `i` on is present, there is none to find. */
  lemma {:induction false} NoneFrom(xs: seq<Option<Json>>, i: nat)
    requires i <= |xs|
    requires forall j :: i <= j < |xs| ==> xs[j].None?
    ensures LastSome(xs, i).None?
    decreases |xs| - i
  {
    if i < |xs| {
      NoneFrom(xs, i + 1);
    }
  }

  /** What each item of `d` assigns to `k` last. */
  function ItemLasts(d: Dict, parent: string, sep: string, k: string): (xs: seq<Option<Json>>)
    ensures |xs| == |d|
    ensures forall j :: 0 <= j < |d| ==> xs[j] == LastWrite(EntryWrites(NewKey(parent, sep, d[j].0), d[j].1, sep), k)
  {
    seq(|d|, j requires 0 <= j < |d| => LastWrite(EntryWrites(NewKey(parent, sep, d[j].0), d[j].1, sep), k))
  }

  /** Reading the items from the end finds the last assignment. */
  lemma {:induction false} LastWriteByItems(d: Dict, i: nat, parent: string, sep: string, k: string)
    requires i <= |d|
    ensures LastSome(ItemLasts(d, parent, sep, k), i) == LastWrite(DictWrites(d, i, parent, sep), k)
    decreases |d| - i
  {
    if i < |d| {
      var xs := ItemLasts(d, parent, sep, k);
      LastWriteByItems(d, i + 1, parent, sep, k);
      LastWriteStep(d, i, parent, sep, k);
      LastSomeStep(xs, i);
      assert xs[i] == LastWrite(EntryWrites(NewKey(parent, sep, d[i].0), d[i].1, sep), k);
    }
  }

  lemma LastSomeStep(xs: seq<Option<Json>>, i: nat)
    requires i < |xs|
    ensures LastSome(xs, i) == if LastSome(xs, i + 1).Some? then LastSome(xs, i + 1) else xs[i]
  {
  }

  /** The value of `k` in a flattened dict is the one the item at `i` assigns it, when no
      later item assigns `k`. */
  lemma ValueFromItem(d: Dict, i: nat, parent: string, sep: string, k: string, v: Json)
    requires i < |d|
    requires LastWrite(EntryWrites(NewKey(parent, sep, d[i].0), d[i].1, sep), k) == Some(v)
    requires forall j :: i < j < |d| ==> LastWrite(EntryWrites(NewKey(parent, sep, d[j].0), d[j].1, sep), k).None?
    ensures LastWrite(DictWrites(d, 0, parent, sep), k) == Some(v)
  {
    var xs := ItemLasts(d, parent, sep, k);
    NoneFrom(xs, i + 1);
    assert LastSome(xs, i) == Some(v);
    LaterWins(xs, i, 0);
    LastWriteByItems(d, 0, parent, sep, k);
  }

  /** A response shaped like the sample: the content of the first choice's message, and the
      cached-token count in `usage.prompt_tokens_details`, sit at their joined keys. */
  lemma ResponseKeys(d: Dict, c: Dict, m: Dict, u: Dict, details: Dict)
    requires |d| == 8 && d[4] == ("choices", JArr([JObj(c)])) && d[5] == ("usage", JObj(u))
    requires d[6].0 == "system_fingerprint" && d[7].0 == "prompt" && d[6].1.JStr? && d[7].1.JStr?
    requires |c| == 4 && c[1] == ("message", JObj(m)) && c[2] == ("logprobs", JNull) && c[3].0 == "finish_reason" && c[3].1.JStr?
    requires |m| == 2 && m[1].0 == "content" && m[1].1.JStr?
    requires |u| == 6 && u[3] == ("prompt_tokens_details", JObj(details))
    requires u[4].0 == "prompt_cache_hit_tokens" && u[5].0 == "prompt_cache_miss_tokens" && u[4].1.JInt? && u[5].1.JInt?
    requires |details| == 1 && details[0].0 == "cached_tokens" && details[0].1.JInt?
    ensures Get(Flatten(d, "", "_"), "choices_0_message_content") == Some(m[1].1)
    ensures Get(Flatten(d, "", "_"), "usage_prompt_tokens_details_cached_tokens") == Some(details[0].1)
  {
    ResponseAnswer(d, c, m);
    ResponseCachedTokens(d, u, details);
    FlattenShape(d, "", "_");
  }

  /** A key the two scalars at the end of the response, `system_fingerprint` and `prompt`,
      do not take is assigned by an earlier item if at all. */
  lemma ResponseTail(d: Dict, k: string)
    requires |d| == 8 && d[6].0 == "system_fingerprint" && d[7].0 == "prompt" && d[6].1.JStr? && d[7].1.JStr?
    requires k != "system_fingerprint" && k != "prompt"
    ensures forall j :: 5 < j < |d| ==> LastWrite(EntryWrites(NewKey("", "_", d[j].0), d[j].1, "_"), k).None?
  {
    ScalarLastWrite("prompt", d[7].1, "_", k);
    ScalarLastWrite("system_fingerprint", d[6].1, "_", k);
  }

  /** The joined key of the first choice's message content. */
  lemma AnswerKey()
    ensures NewKey(NewKey(ItemKey("choices", "_", 0), "_", "message"), "_", "content") == "choices_0_message_content"
  {
    assert ItemKey("choices", "_", 0) == "choices_0" by {
      assert NatToString(0) == "0";
    }
    assert NewKey("choices_0", "_", "message") == "choices_0_message";
  }

  /** The joined key of the cached-token count. */
  lemma CachedTokensKey()
    ensures NewKey(NewKey("usage", "_", "prompt_tokens_details"), "_", "cached_tokens") == "usage_prompt_tokens_details_cached_tokens"
  {
    assert NewKey("usage", "_", "prompt_tokens_details") == "usage_prompt_tokens_details";
  }

  /** A list holding one dict assigns what the dict assigns under index 0. */
  lemma SingleDictList(key: string, c: Dict, sep: string)
    ensures EntryWrites(key, JArr([JObj(c)]), sep) == DictWrites(c, 0, ItemKey(key, sep, 0), sep)
  {
    var items := [JObj(c)];
    assert items[0] == JObj(c);
    assert ItemWrites(items, 1, key, sep) == [];
    assert ItemWrites(items, 0, key, sep) == DictWrites(c, 0, ItemKey(key, sep, 0), sep) + [];
  }

  /** The answer is the last item of the message, and the message is followed in the choice
      by two scalars at keys of other lengths. */
  lemma ChoiceContent(c: Dict, m: Dict, p: string)
    requires |c| == 4 && c[1] == ("message", JObj(m)) && c[2] == ("logprobs", JNull) && c[3].0 == "finish_reason" && c[3].1.JStr?
    requires |m| == 2 && m[1].0 == "content" && m[1].1.JStr?
    requires p != ""
    ensures LastWrite(DictWrites(c, 0, p, "_"), NewKey(NewKey(p, "_", "message"), "_", "content")) == Some(m[1].1)
  {
    var pm := NewKey(p, "_", "message");
    var k := NewKey(pm, "_", "content");
    ScalarLastWrite(k, m[1].1, "_", k);
    ValueFromItem(m, 1, pm, "_", k, m[1].1);
    // `k` is 16 characters longer than the prefix of every later item's key, so no later
    // scalar in the choice writes it; comparing lengths is cheaper than comparing texts.
    assert |k| == |p| + 16;
    forall j | 1 < j < |c| ensures LastWrite(EntryWrites(NewKey(p, "_", c[j].0), c[j].1, "_"), k).None? {
      assert j == 2 || j == 3;
      assert |NewKey(p, "_", c[j].0)| == |p| + 1 + |c[j].0|;
      ScalarLastWrite(NewKey(p, "_", c[j].0), c[j].1, "_", k);
    }
    assert EntryWrites(NewKey(p, "_", c[1].0), c[1].1, "_") == DictWrites(m, 0, pm, "_");
    ValueFromItem(c, 1, p, "_", k, m[1].1);
  }

  /** None of `usage`'s keys is taken by a key outside `usage_`. */
  lemma UsageDoesNotAssign(u: Dict, k: string)
    requires !("usage_" <= k)
    ensures LastWrite(EntryWrites("usage", JObj(u), "_"), k).None?
  {
    DictWritesUnderPrefix(u, 0, "usage", "_");
    LastWriteFound(EntryWrites("usage", JObj(u), "_"), k);
  }

  lemma ResponseAnswer(d: Dict, c: Dict, m: Dict)
    requires |d| == 8 && d[4] == ("choices", JArr([JObj(c)])) && d[5].0 == "usage" && d[5].1.JObj?
    requires d[6].0 == "system_fingerprint" && d[7].0 == "prompt" && d[6].1.JStr? && d[7].1.JStr?
    requires |c| == 4 && c[1] == ("message", JObj(m)) && c[2] == ("logprobs", JNull) && c[3].0 == "finish_reason" && c[3].1.JStr?
    requires |m| == 2 && m[1].0 == "content" && m[1].1.JStr?
    ensures LastWrite(DictWrites(d, 0, "", "_"), "choices_0_message_content") == Some(m[1].1)
  {
    var p := ItemKey("choices", "_", 0);
    var k := NewKey(NewKey(p, "_", "message"), "_", "content");
    AnswerKey();
    ChoiceContent(c, m, p);
    SingleDictList("choices", c, "_");
    assert !("usage_" <= k) by {
      assert k[0] != 'u';
    }
    UsageDoesNotAssign(d[5].1.fields, k);
    ResponseTail(d, k);
    assert NewKey("", "_", "choices") == "choices" && NewKey("", "_", "usage") == "usage";
    ValueFromItem(d, 4, "", "_", k, m[1].1);
  }

  /** The cached-token count is the only item of `prompt_tokens_details`, which is followed
      in `usage` by two scalars at keys of other lengths. */
  lemma UsageCachedTokens(u: Dict, details: Dict)
    requires |u| == 6 && u[3] == ("prompt_tokens_details", JObj(details))
    requires u[4].0 == "prompt_cache_hit_tokens" && u[5].0 == "prompt_cache_miss_tokens" && u[4].1.JInt? && u[5].1.JInt?
    requires |details| == 1 && details[0].0 == "cached_tokens" && details[0].1.JInt?
    ensures LastWrite(DictWrites(u, 0, "usage", "_"),
                      NewKey(NewKey("usage", "_", "prompt_tokens_details"), "_", "cached_tokens")) == Some(details[0].1)
  {
    var pd := NewKey("usage", "_", "prompt_tokens_details");
    var k := NewKey(pd, "_", "cached_tokens");
    ScalarLastWrite(k, details[0].1, "_", k);
    ValueFromItem(details, 0, pd, "_", k, details[0].1);
    // `k` has 41 characters and the keys of the later scalars in `usage` are shorter, so
    // none of them writes it; comparing lengths is cheaper than comparing texts.
    assert |k| == 41;
    forall j | 3 < j < |u| ensures LastWrite(EntryWrites(NewKey("usage", "_", u[j].0), u[j].1, "_"), k).None? {
      assert j == 4 || j == 5;
      assert |NewKey("usage", "_", u[j].0)| == 6 + |u[j].0|;
      ScalarLastWrite(NewKey("usage", "_", u[j].0), u[j].1, "_", k);
    }
    assert EntryWrites(NewKey("usage", "_", u[3].0), u[3].1, "_") == DictWrites(details, 0, pd, "_");
    ValueFromItem(u, 3, "usage", "_", k, details[0].1);
  }

  lemma ResponseCachedTokens(d: Dict, u: Dict, details: Dict)
    requires |d| == 8 && d[5] == ("usage", JObj(u))
    requires d[6].0 == "system_fingerprint" && d[7].0 == "prompt" && d[6].1.JStr? && d[7].1.JStr?
    requires |u| == 6 && u[3] == ("prompt_tokens_details", JObj(details))
    requires u[4].0 == "prompt_cache_hit_tokens" && u[5].0 == "prompt_cache_miss_tokens" && u[4].1.JInt? && u[5].1.JInt?
    requires |details| == 1 && details[0].0 == "cached_tokens" && details[0].1.JInt?
    ensures LastWrite(DictWrites(d, 0, "", "_"), "usage_prompt_tokens_details_cached_tokens") == Some(details[0].1)
  {
    var k := NewKey(NewKey("usage", "_", "prompt_tokens_details"), "_", "cached_tokens");
    CachedTokensKey();
    UsageCachedTokens(u, details);
    ResponseTail(d, k);
    assert EntryWrites(NewKey("", "_", d[5].0), d[5].1, "_") == DictWrites(u, 0, "usage", "_");
    ValueFromItem(d, 5, "", "_", k, details[0].1);
  }

  /** The sample has the shape `ResponseKeys` needs. */
  lemma SampleIsResponse()
    ensures var d, c, u := SampleData, SampleChoice, SampleUsage;
            var m, details := c[1].1.fields, u[3].1.fields;
            |d| == 8 && d[4] == ("choices", JArr([JObj(c)])) && d[5] == ("usage", JObj(u)) &&
            d[6].0 == "system_fingerprint" && d[7].0 == "prompt" && d[6].1.JStr? && d[7].1.JStr? &&
            |c| == 4 && c[1] == ("message", JObj(m)) && c[2] == ("logprobs", JNull) && c[3].0 == "finish_reason" && c[3].1.JStr? &&
            |m| == 2 && m[1] == ("content", JStr("Brasília.")) &&
            |u| == 6 && u[3] == ("prompt_tokens_details", JObj(details)) &&
            u[4].0 == "prompt_cache_hit_tokens" && u[5].0 == "prompt_cache_miss_tokens" && u[4].1.JInt? && u[5].1.JInt? &&
            |details| == 1 && details[0] == ("cached_tokens", JInt(0))
  {
  }

  /** Two entries of the dict the script prints: the sample flattens to the message text
      and to 0 cached tokens. */
  lemma SampleFlattens()
    ensures Get(Flatten(SampleData, "", "_"), "choices_0_message_content") == Some(JStr("Brasília."))
    ensures Get(Flatten(SampleData, "", "_"), "usage_prompt_tokens_details_cached_tokens") == Some(JInt(0))
  {
    SampleIsResponse();
    ResponseKeys(SampleData, SampleChoice, SampleChoice[1].1.fields, SampleUsage, SampleUsage[3].1.fields);
  }
}
