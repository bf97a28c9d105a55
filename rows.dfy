/** A row of a sheet: an insertion-ordered dictionary from column name to cell
    text (Python's `OrderedDict`). Entries keep the order in which their keys
    were first inserted; assigning to an existing key overwrites its value in
    place. */
module Rows {
  import opened Wrappers

  datatype Entry = Entry(key: string, value: string)

  type Row = seq<Entry>

  function Keys(row: Row): (ks: seq<string>)
    ensures |ks| == |row|
    ensures forall i :: 0 <= i < |row| ==> ks[i] == row[i].key
  {
    if row == [] then [] else [row[0].key] + Keys(row[1..])
  }

  predicate HasKey(row: Row, k: string)
  {
    k in Keys(row)
  }

  /** No key occurs twice, as in every Python dictionary. */
  predicate UniqueKeys(row: Row)
  {
    forall i, j :: 0 <= i < j < |row| ==> row[i].key != row[j].key
  }

  /** `row.get(k)`. */
  function Get(row: Row, k: string): Option<string>
  {
    if row == [] then None
    else if row[0].key == k then Some(row[0].value)
    else Get(row[1..], k)
  }

  /** `row.get(k)` finds a value exactly for the keys of the row. */
  lemma {:induction false} GetSome(row: Row, k: string)
    ensures Get(row, k).Some? <==> HasKey(row, k)
  {
    if row != [] {
      GetSome(row[1..], k);
      KeysCons(row[0], row[1..]);
      assert row == [row[0]] + row[1..];
    }
  }

  /** What `row.get(k)` finds is an entry of the row. */
  lemma {:induction false} GetIn(row: Row, k: string)
    requires Get(row, k).Some?
    ensures Entry(k, Get(row, k).value) in row
  {
    if row[0].key != k {
      GetIn(row[1..], k);
    }
  }

  /** An entry appended at the end is found only for a key not found before. */
  lemma {:induction false} GetSnoc(row: Row, e: Entry, k: string)
    ensures Get(row + [e], k) == if Get(row, k).Some? then Get(row, k) else if e.key == k then Some(e.value) else None
  {
    if row != [] {
      assert (row + [e])[1..] == row[1..] + [e];
      GetSnoc(row[1..], e, k);
    }
  }

  lemma {:induction false} GetAt(row: Row, i: nat)
    requires UniqueKeys(row) && i < |row|
    ensures Get(row, row[i].key) == Some(row[i].value)
  {
    if i > 0 {
      GetAt(row[1..], i - 1);
    }
  }

  lemma {:induction false} KeysCons(e: Entry, rest: Row)
    ensures Keys([e] + rest) == [e.key] + Keys(rest)
  {
    assert ([e] + rest)[1..] == rest;
  }

  lemma {:induction false} KeysSnoc(row: Row, e: Entry)
    ensures Keys(row + [e]) == Keys(row) + [e.key]
  {
    assert forall i :: 0 <= i < |row| ==> (row + [e])[i] == row[i];
  }

  /** `row[k] = v`: overwrite the value in place if `k` is present, else append. */
  function Set(row: Row, k: string, v: string): (r: Row)
  {
    if row == [] then [Entry(k, v)]
    else if row[0].key == k then [Entry(k, v)] + row[1..]
    else [row[0]] + Set(row[1..], k, v)
  }

  /** After `row[k] = v`, `k` maps to `v` and every other key keeps its value. */
  lemma {:induction false} SetGet(row: Row, k: string, v: string, k': string)
    ensures Get(Set(row, k, v), k') == if k' == k then Some(v) else Get(row, k')
  {
    if row != [] && row[0].key != k {
      SetGet(row[1..], k, v, k');
      assert ([row[0]] + Set(row[1..], k, v))[1..] == Set(row[1..], k, v);
    } else if row != [] {
      assert ([Entry(k, v)] + row[1..])[1..] == row[1..];
    }
  }

  /** A second `row[k] = w` overrides the first. */
  lemma {:induction false} SetSet(row: Row, k: string, v: string, w: string)
    ensures Set(Set(row, k, v), k, w) == Set(row, k, w)
  {
    if row != [] && row[0].key != k {
      SetSet(row[1..], k, v, w);
      assert ([row[0]] + Set(row[1..], k, v))[1..] == Set(row[1..], k, v);
    } else if row != [] {
      assert ([Entry(k, v)] + row[1..])[1..] == row[1..];
    }
  }

  /** Overwriting keeps the key order; a new key goes last. */
  lemma {:induction false} SetKeys(row: Row, k: string, v: string)
    ensures Keys(Set(row, k, v)) == if HasKey(row, k) then Keys(row) else Keys(row) + [k]
  {
    if row != [] {
      KeysCons(row[0], row[1..]);
      assert row == [row[0]] + row[1..];
      if row[0].key == k {
        KeysCons(Entry(k, v), row[1..]);
      } else {
        SetKeys(row[1..], k, v);
        KeysCons(row[0], Set(row[1..], k, v));
      }
    }
  }

  lemma {:induction false} SetUnique(row: Row, k: string, v: string)
    requires UniqueKeys(row)
    ensures UniqueKeys(Set(row, k, v))
  {
    SetKeys(row, k, v);
    var r := Set(row, k, v);
    assert Keys(r)[..|row|] == Keys(row);
    forall i, j | 0 <= i < j < |r| ensures r[i].key != r[j].key {
      assert Keys(r)[i] == r[i].key && Keys(r)[j] == r[j].key;
      if j < |row| {
        assert Keys(row)[i] == row[i].key && Keys(row)[j] == row[j].key;
      }
    }
  }

  /** Assigning a key the value it already has changes nothing. */
  lemma {:induction false} SetSame(row: Row, k: string, v: string)
    requires Get(row, k) == Some(v)
    ensures Set(row, k, v) == row
  {
    if row[0].key == k {
      assert row == [Entry(k, v)] + row[1..];
    } else {
      SetSame(row[1..], k, v);
      assert row == [row[0]] + row[1..];
    }
  }

  /** A key not yet present is appended after all others. */
  lemma {:induction false} SetAppends(row: Row, k: string, v: string)
    requires !HasKey(row, k)
    ensures Set(row, k, v) == row + [Entry(k, v)]
  {
    if row != [] {
      KeysCons(row[0], row[1..]);
      assert row == [row[0]] + row[1..];
      SetAppends(row[1..], k, v);
    }
  }

  /** Every entry after `row[k] = v` is an old entry or the new pair. */
  lemma {:induction false} SetEntries(row: Row, k: string, v: string)
    ensures forall e :: e in Set(row, k, v) ==> e in row || e == Entry(k, v)
  {
    if row != [] && row[0].key != k {
      SetEntries(row[1..], k, v);
    }
  }

  /** `del row[k]` (or nothing when `k` is absent). */
  function Remove(row: Row, k: string): (r: Row)
    ensures forall i :: 0 <= i < |r| ==> r[i] in row && r[i].key != k
    ensures |r| <= |row|
  {
    if row == [] then []
    else if row[0].key == k then Remove(row[1..], k)
    else [row[0]] + Remove(row[1..], k)
  }

  lemma {:induction false} RemoveGet(row: Row, k: string, k': string)
    ensures Get(Remove(row, k), k') == if k' == k then None else Get(row, k')
  {
    if row != [] {
      RemoveGet(row[1..], k, k');
      if row[0].key != k {
        assert ([row[0]] + Remove(row[1..], k))[1..] == Remove(row[1..], k);
      }
    }
  }

  lemma {:induction false} RemoveAbsent(row: Row, k: string)
    requires !HasKey(row, k)
    ensures Remove(row, k) == row
  {
    if row != [] {
      KeysCons(row[0], row[1..]);
      assert row == [row[0]] + row[1..];
      RemoveAbsent(row[1..], k);
    }
  }

  /** Every entry under another key survives the deletion. */
  lemma {:induction false} RemoveKeeps(row: Row, k: string, e: Entry)
    requires e in row && e.key != k
    ensures e in Remove(row, k)
  {
    if row[0] != e {
      RemoveKeeps(row[1..], k, e);
    }
  }
}
