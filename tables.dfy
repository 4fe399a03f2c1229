/** Option and Result, used for nullable lookups and for operations that fail. */
module Wrappers {

  datatype Option<+T> = None | Some(value: T)

  datatype Result<+R, +E> = Success(value: R) | Failure(error: E)
}

/**
 * The tables of the relational store, as the services see them: a table is a
 * sequence of rows in storage order, each row holding the primary key and the
 * record stored under it. The store never holds two rows with one key.
 */
module Tables {
  import opened Wrappers

  datatype Row<T> = Row(key: int, val: T)

  type Table<T> = seq<Row<T>>

  /** The primary keys present in a table. */
  function Keys<T(==)>(t: Table<T>): set<int> {
    set x | x in t :: x.key
  }

  /** The primary-key constraint of the store. */
  predicate UniqueKeys<T(==)>(t: Table<T>) {
    forall i, j | 0 <= i < j < |t| :: t[i].key != t[j].key
  }

  lemma KeysCons<T>(t: Table<T>)
    requires |t| > 0
    ensures Keys(t) == {t[0].key} + Keys(t[1..])
  {
    assert t == [t[0]] + t[1..];
  }

  lemma UniqueKeysCons<T>(t: Table<T>)
    requires |t| > 0
    ensures UniqueKeys(t) <==> UniqueKeys(t[1..]) && t[0].key !in Keys(t[1..])
  {
    if UniqueKeys(t[1..]) && t[0].key !in Keys(t[1..]) {
      forall i, j | 0 <= i < j < |t| ensures t[i].key != t[j].key {
        if i == 0 {
          assert t[j] == t[1..][j - 1];
        } else {
          assert t[i] == t[1..][i - 1] && t[j] == t[1..][j - 1];
        }
      }
    }
  }

  /** The position of the first row with key `k` (a linear scan, like FirstOrDefault). */
  function IndexOf<T(==)>(t: Table<T>, k: int): (r: Option<nat>)
    ensures r.Some? ==> r.value < |t| && t[r.value].key == k
    ensures r.Some? ==> forall j | 0 <= j < r.value :: t[j].key != k
    ensures r.None? <==> k !in Keys(t)
  {
    if |t| == 0 then None
    else
      KeysCons(t);
      if t[0].key == k then Some(0)
      else match IndexOf(t[1..], k)
        case None => None
        case Some(i) => Some(i + 1)
  }

  /** Lookup by primary key: `Find`/`FirstOrDefault(x => x.Id == k)`, null when absent. */
  function Lookup<T(==)>(t: Table<T>, k: int): (r: Option<T>)
    ensures r.Some? <==> k in Keys(t)
    ensures r.Some? ==> Row(k, r.value) in t
  {
    match IndexOf(t, k)
    case None => None
    case Some(i) => Some(t[i].val)
  }

  /** Under the primary-key constraint, the row stored under `k` is the one found. */
  lemma LookupMember<T>(t: Table<T>, k: int, v: T)
    requires UniqueKeys(t) && Row(k, v) in t
    ensures Lookup(t, k) == Some(v)
  {
    var i :| 0 <= i < |t| && t[i] == Row(k, v);
  }

  /** The largest key in use, or 0 for an empty table. */
  function MaxKey<T(==)>(t: Table<T>): (m: int)
    ensures m >= 0
    ensures forall x | x in t :: x.key <= m
  {
    if |t| == 0 then 0
    else
      assert forall x | x in t :: x == t[0] || x in t[1..];
      var m := MaxKey(t[1..]);
      if t[0].key > m then t[0].key else m
  }

  /** The key the store generates for a new row (auto-increment). */
  function FreshKey<T(==)>(t: Table<T>): (k: int)
    ensures k > 0 && k !in Keys(t)
  {
    MaxKey(t) + 1
  }

  /** Adding a row under a key not yet in use. */
  function Insert<T(==)>(t: Table<T>, k: int, v: T): (r: Table<T>)
    requires k !in Keys(t)
    ensures Keys(r) == Keys(t) + {k}
    ensures UniqueKeys(t) ==> UniqueKeys(r)
  {
    var r := t + [Row(k, v)];
    assert forall x | x in r :: x in t || x == Row(k, v);
    assert forall i | 0 <= i < |t| :: t[i] in t;
    r
  }

  /** Overwriting the record stored under `k`; a table without `k` is left as it is. */
  function Replace<T(==)>(t: Table<T>, k: int, v: T): (r: Table<T>)
    ensures |r| == |t| && Keys(r) == Keys(t)
    ensures UniqueKeys(t) ==> UniqueKeys(r)
  {
    match IndexOf(t, k)
    case None => t
    case Some(i) =>
      var r := t[i := Row(k, v)];
      assert forall x | x in r :: x in t || x == Row(k, v);
      assert forall j | 0 <= j < |r| :: r[j].key == t[j].key;
      r
  }

  /**
   * Removing the row stored under `k`, if any (`Remove` followed by
   * `SaveChanges`); `RemoveRows` and `RemoveKeys` state what it keeps.
   */
  function Remove<T(==)>(t: Table<T>, k: int): (r: Table<T>)
    ensures |r| <= |t|
    ensures forall i | 0 <= i < |r| :: r[i].key != k
  {
    if |t| == 0 then []
    else if t[0].key == k then Remove(t[1..], k)
    else [t[0]] + Remove(t[1..], k)
  }

  /**
   * A removal takes exactly `k` out of the keys and keeps the primary-key
   * constraint; a table without `k` is left as it is.
   */
  lemma {:induction false} RemoveKeys<T>(t: Table<T>, k: int)
    ensures Keys(Remove(t, k)) == Keys(t) - {k}
    ensures UniqueKeys(t) ==> UniqueKeys(Remove(t, k))
    ensures k !in Keys(t) ==> Remove(t, k) == t
  {
    if |t| > 0 {
      KeysCons(t);
      UniqueKeysCons(t);
      RemoveKeys(t[1..], k);
      var rest := Remove(t[1..], k);
      if t[0].key != k {
        var r := [t[0]] + rest;
        assert r[1..] == rest;
        KeysCons(r);
        UniqueKeysCons(r);
        assert t == [t[0]] + t[1..];
      }
    }
  }

  /** The rows a removal keeps: every row of the table whose key is not `k`, and no other. */
  lemma {:induction false} RemoveRows<T>(t: Table<T>, k: int)
    ensures forall x | x in Remove(t, k) :: x in t && x.key != k
    ensures forall x | x in t && x.key != k :: x in Remove(t, k)
  {
    if |t| > 0 {
      assert forall x | x in t :: x == t[0] || x in t[1..];
      RemoveRows(t[1..], k);
    }
  }

  lemma LookupInsert<T>(t: Table<T>, k: int, v: T, k': int)
    requires UniqueKeys(t) && k !in Keys(t)
    ensures Lookup(Insert(t, k, v), k') == if k' == k then Some(v) else Lookup(t, k')
  {
    var r := Insert(t, k, v);
    if k' == k {
      LookupMember(r, k, v);
    } else if w :| Lookup(t, k') == Some(w) {
      LookupMember(r, k', w);
    } else {
      assert k' !in Keys(r);
    }
  }

  lemma LookupReplace<T>(t: Table<T>, k: int, v: T, k': int)
    requires UniqueKeys(t) && k in Keys(t)
    ensures Lookup(Replace(t, k, v), k') == if k' == k then Some(v) else Lookup(t, k')
  {
    var r := Replace(t, k, v);
    var i := IndexOf(t, k).value;
    assert r == t[i := Row(k, v)];
    if k' == k {
      LookupMember(r, k, v);
    } else if w :| Lookup(t, k') == Some(w) {
      var j :| 0 <= j < |t| && t[j] == Row(k', w);
      assert r[j] == t[j];
      LookupMember(r, k', w);
    } else {
      assert k' !in Keys(r);
    }
  }

  lemma LookupRemove<T>(t: Table<T>, k: int, k': int)
    requires UniqueKeys(t)
    ensures Lookup(Remove(t, k), k') == if k' == k then None else Lookup(t, k')
  {
    var r := Remove(t, k);
    RemoveKeys(t, k);
    RemoveRows(t, k);
    if k' != k {
      if w :| Lookup(t, k') == Some(w) {
        LookupMember(r, k', w);
      }
    }
  }

  /** Removing the row just inserted gives back the table. */
  lemma {:induction false} RemoveInsert<T>(t: Table<T>, k: int, v: T)
    requires k !in Keys(t)
    ensures Remove(Insert(t, k, v), k) == t
  {
    if |t| == 0 {
    } else {
      KeysCons(t);
      var r := Insert(t, k, v);
      assert r[1..] == Insert(t[1..], k, v);
      RemoveInsert(t[1..], k, v);
      assert t == [t[0]] + t[1..];
    }
  }

  /** Writing a record back over a replaced one restores the table. */
  lemma ReplaceRestore<T>(t: Table<T>, k: int, v: T, w: T)
    requires Lookup(t, k) == Some(w)
    ensures Replace(Replace(t, k, v), k, w) == t
  {
    var i := IndexOf(t, k).value;
    var r := Replace(t, k, v);
    assert r == t[i := Row(k, v)];
    assert IndexOf(r, k) == Some(i) by {
      assert r[i].key == k;
      assert forall j | 0 <= j < i :: r[j] == t[j];
    }
  }

  /** The rows whose record satisfies `p`, in storage order (a `Where` clause). */
  function Select<T(==)>(t: Table<T>, p: T -> bool): (r: Table<T>)
    ensures |r| <= |t|
    ensures forall x | x in r :: x in t && p(x.val)
    ensures forall x | x in t && p(x.val) :: x in r
    ensures UniqueKeys(t) ==> UniqueKeys(r)
  {
    if |t| == 0 then []
    else
      UniqueKeysCons(t);
      assert forall x | x in t :: x == t[0] || x in t[1..];
      var rest := Select(t[1..], p);
      if p(t[0].val) then
        var r := [t[0]] + rest;
        UniqueKeysCons(r);
        r
      else rest
  }

  /** The keys of the rows whose record satisfies `p`. */
  function KeysWhere<T(==)>(t: Table<T>, p: T -> bool): set<int> {
    set x | x in t && p(x.val) :: x.key
  }

  lemma KeysWhereCons<T>(t: Table<T>, p: T -> bool)
    requires |t| > 0
    ensures KeysWhere(t, p) == (if p(t[0].val) then {t[0].key} else {}) + KeysWhere(t[1..], p)
  {
    assert forall x | x in t :: x == t[0] || x in t[1..];
  }

  /** A selection holds one row for each key that satisfies `p`. */
  lemma {:induction false} SelectCount<T>(t: Table<T>, p: T -> bool)
    ensures UniqueKeys(t) ==> |Select(t, p)| == |KeysWhere(t, p)|
  {
    if |t| == 0 {
      assert KeysWhere(t, p) == {};
    } else if UniqueKeys(t) {
      UniqueKeysCons(t);
      KeysWhereCons(t, p);
      SelectCount(t[1..], p);
      if p(t[0].val) {
        assert t[0].key !in KeysWhere(t[1..], p);
      }
    }
  }
}
