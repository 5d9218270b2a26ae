/**
 Tables written by reference, as the catalogue pull does it: the first row with the key is patched, a new row
 is appended when there is none. `fixed` columns are written on creation only. A row's id is its position.
 */
module CatalogTables {
  import opened Wrappers

  datatype Row<F, P> = Row(key: Option<string>, fixed: F, patched: P)

  datatype Entry<F, P> = Entry(key: string, fixed: F, patched: P)

  /** The first row with the key, or the length when there is none. */
  function Find<F, P>(t: seq<Row<F, P>>, key: string): (i: nat)
    ensures i <= |t| && (i < |t| ==> t[i].key == Some(key))
    ensures forall j | 0 <= j < i :: t[j].key != Some(key)
  {
    if t == [] then 0
    else
      var i := Find(t[..|t| - 1], key);
      if i < |t| - 1 || t[|t| - 1].key == Some(key) then i else |t|
  }

  function Upsert<F, P>(t: seq<Row<F, P>>, e: Entry<F, P>): seq<Row<F, P>> {
    var i := Find(t, e.key);
    if i < |t| then t[i := t[i].(patched := e.patched)] else t + [Row(Some(e.key), e.fixed, e.patched)]
  }

  function UpsertAll<F, P>(t: seq<Row<F, P>>, es: seq<Entry<F, P>>): seq<Row<F, P>> {
    if es == [] then t else Upsert(UpsertAll(t, es[..|es| - 1]), es[|es| - 1])
  }

  predicate Mentions<F, P>(es: seq<Entry<F, P>>, key: string) {
    exists i :: 0 <= i < |es| && es[i].key == key
  }

  /** What the last entry with the key says. */
  function Last<F, P>(es: seq<Entry<F, P>>, key: string): P
    requires Mentions(es, key)
  {
    if es[|es| - 1].key == key then es[|es| - 1].patched else Last(es[..|es| - 1], key)
  }

  ghost predicate KeepsRows<F, P>(t: seq<Row<F, P>>, t': seq<Row<F, P>>) {
    |t| <= |t'| && forall i | 0 <= i < |t| :: t'[i] == t[i].(patched := t'[i].patched)
  }

  lemma FindIsFirst<F, P>(t: seq<Row<F, P>>, key: string, i: nat)
    requires i < |t| && t[i].key == Some(key) && forall j | 0 <= j < i :: t[j].key != Some(key)
    ensures Find(t, key) == i
  {
  }

  lemma FindIsStable<F, P>(t: seq<Row<F, P>>, t': seq<Row<F, P>>, key: string)
    requires KeepsRows(t, t') && Find(t, key) < |t|
    ensures Find(t', key) == Find(t, key)
  {
    FindIsFirst(t', key, Find(t, key));
  }

  lemma UpsertStep<F, P>(t: seq<Row<F, P>>, e: Entry<F, P>)
    ensures var t' := Upsert(t, e);
            && KeepsRows(t, t') && |t'| <= |t| + 1
            && Find(t', e.key) < |t'| && t'[Find(t', e.key)].patched == e.patched
            && (forall i | 0 <= i < |t| && i != Find(t, e.key) :: t'[i] == t[i])
            && (forall k | k != e.key && Find(t, k) == |t| :: Find(t', k) == |t'|)
  {
    var t' := Upsert(t, e);
    if Find(t, e.key) < |t| {
      FindIsStable(t, t', e.key);
    } else {
      FindIsFirst(t', e.key, |t|);
    }
    forall k | k != e.key && Find(t, k) == |t| ensures Find(t', k) == |t'| {
      if Find(t', k) < |t'| {
        assert false;
      }
    }
  }

  lemma {:induction false} UpsertAllKeepsRows<F, P>(t: seq<Row<F, P>>, es: seq<Entry<F, P>>)
    ensures KeepsRows(t, UpsertAll(t, es))
  {
    if es != [] {
      UpsertAllKeepsRows(t, es[..|es| - 1]);
      UpsertStep(UpsertAll(t, es[..|es| - 1]), es[|es| - 1]);
      hide Upsert;
    }
  }

  /** Main result: the last entry of each key wins, whatever was there and however often the key is repeated. */
  lemma {:induction false} LastEntryWins<F, P>(t: seq<Row<F, P>>, es: seq<Entry<F, P>>, key: string)
    requires Mentions(es, key)
    ensures var t' := UpsertAll(t, es);
            Find(t', key) < |t'| && t'[Find(t', key)].patched == Last(es, key)
  {
    var before, e := es[..|es| - 1], es[|es| - 1];
    var mid := UpsertAll(t, before);
    UpsertStep(mid, e);
    hide Upsert;
    if e.key != key {
      var i :| 0 <= i < |es| && es[i].key == key;
      assert before[i].key == key;
      LastEntryWins(t, before, key);
      FindIsStable(mid, UpsertAll(t, es), key);
      assert Find(mid, key) != Find(mid, e.key) by {
        assert mid[Find(mid, key)].key == Some(key);
      }
    }
  }

  /** Rows that no entry finds are left alone. */
  lemma {:induction false} OthersUntouched<F, P>(t: seq<Row<F, P>>, es: seq<Entry<F, P>>, i: nat)
    requires i < |t| && forall k | Mentions(es, k) :: Find(t, k) != i
    ensures i < |UpsertAll(t, es)| && UpsertAll(t, es)[i] == t[i]
  {
    if es != [] {
      var before, e := es[..|es| - 1], es[|es| - 1];
      forall k | Mentions(before, k) ensures Mentions(es, k) {
        var j :| 0 <= j < |before| && before[j].key == k;
        assert es[j].key == k;
      }
      assert es[|es| - 1].key == e.key && Mentions(es, e.key);
      OthersUntouched(t, before, i);
      UpsertAllKeepsRows(t, before);
      var mid := UpsertAll(t, before);
      if Find(t, e.key) < |t| {
        FindIsStable(t, mid, e.key);
      }
      UpsertStep(mid, e);
      hide Upsert, Find;
    }
  }

  lemma {:induction false} KnownKeysCreateNothing<F, P>(t: seq<Row<F, P>>, es: seq<Entry<F, P>>)
    requires forall k | Mentions(es, k) :: Find(t, k) < |t|
    ensures |UpsertAll(t, es)| == |t|
  {
    if es != [] {
      var before, e := es[..|es| - 1], es[|es| - 1];
      forall k | Mentions(before, k) ensures Mentions(es, k) {
        var j :| 0 <= j < |before| && before[j].key == k;
        assert es[j].key == k;
      }
      assert es[|es| - 1].key == e.key && Mentions(es, e.key);
      KnownKeysCreateNothing(t, before);
      UpsertAllKeepsRows(t, before);
      FindIsStable(t, UpsertAll(t, before), e.key);
    }
  }

  /** A table that already says what the entries say last is left as it is. */
  lemma SettledStays<F, P>(t: seq<Row<F, P>>, es: seq<Entry<F, P>>)
    requires forall k | Mentions(es, k) :: Find(t, k) < |t| && t[Find(t, k)].patched == Last(es, k)
    ensures UpsertAll(t, es) == t
  {
    KnownKeysCreateNothing(t, es);
    UpsertAllKeepsRows(t, es);
    var t' := UpsertAll(t, es);
    forall i | 0 <= i < |t| ensures t'[i] == t[i] {
      if k :| Mentions(es, k) && Find(t, k) == i {
        LastEntryWins(t, es, k);
        FindIsStable(t, t', k);
      } else {
        OthersUntouched(t, es, i);
      }
    }
    hide UpsertAll;
  }

  /** Main result: writing the same entries twice is writing them once. */
  lemma TwiceIsOnce<F, P>(t: seq<Row<F, P>>, es: seq<Entry<F, P>>)
    ensures UpsertAll(UpsertAll(t, es), es) == UpsertAll(t, es)
  {
    forall k | Mentions(es, k)
      ensures Find(UpsertAll(t, es), k) < |UpsertAll(t, es)| && UpsertAll(t, es)[Find(UpsertAll(t, es), k)].patched
               == Last(es, k)
    {
      LastEntryWins(t, es, k);
    }
    SettledStays(UpsertAll(t, es), es);
    hide UpsertAll;
  }

  /** A unique key stays unique. */
  ghost predicate UniqueKeys<F, P>(t: seq<Row<F, P>>) {
    forall i, j | 0 <= i < j < |t| && t[i].key.Some? :: t[i].key != t[j].key
  }

  lemma {:induction false} KeysStayUnique<F, P>(t: seq<Row<F, P>>, es: seq<Entry<F, P>>)
    requires UniqueKeys(t)
    ensures UniqueKeys(UpsertAll(t, es))
  {
    if es != [] {
      KeysStayUnique(t, es[..|es| - 1]);
    }
  }
}
